/**
  Splitting a stored block: its expansion is walked in the wire format, and the fields a
  policy names move to blocks of their own.
  */
module Splitting {
  import opened Bytes
  import opened Varint
  import opened Documents
  import opened Layouts
  import opened Stores
  import opened Reader
  import opened Receiver
  import opened RoundTrips
  import opened Paddings
  import opened WireFormat
  import Safety

  /** What a message type says of a field: a message of some type, or anything else. */
  datatype Kind = MessageKind(name: string) | OtherKind

  type Schema = map<string, map<nat, Kind>>

  /** The message types, the caller's policy, and the hash blocks are addressed by. */
  datatype Rules = Rules(schema: Schema, shouldSplit: (string, nat, nat) -> bool, hash: bytes -> Id)

  datatype SplitError =
    | EndsInsideField
    | VarintTooLong
    | GroupsNotSupported(wireType: nat)
    | RunsPastEnd
    | StillTooLarge(remaining: nat)
    | NotItsId(id: Id)
    | Unreadable(reading: ReadError)
    | NoPointerForm

  function FieldKind(rules: Rules, name: Option<string>, number: nat): Option<Kind> {
    if name.Some? && name.value in rules.schema && number in rules.schema[name.value]
    then Some(rules.schema[name.value][number])
    else None
  }

  /** At most ten bytes, of which `k` have been read. */
  function ShortVarint(s: bytes, k: nat): (r: Result<Varint.Read, SplitError>)
    ensures r.Ok? ==> 0 < r.value.width <= |s|
    decreases |s|
  {
    if s == [] then Err(EndsInsideField)
    else if s[0] < 128 then Ok(Varint.Read(s[0], 1))
    else if k >= 9 then Err(VarintTooLong)
    else
      match ShortVarint(s[1..], k + 1)
      case Err(e) => Err(e)
      case Ok(r) => Ok(Varint.Read(s[0] - 128 + 128 * r.value, r.width + 1))
  }

  /** The third varint reader agrees with the others on what it accepts. */
  lemma {:induction false} ShortAgrees(s: bytes, k: nat)
    requires k <= 9
    ensures ShortVarint(s, k).Ok? <==> Decode(s).Some? && k + Decode(s).value.width <= 10
    ensures ShortVarint(s, k).Ok? ==> ShortVarint(s, k).value == Decode(s).value
    decreases |s|
  {
    if s != [] && s[0] >= 128 {
      if k < 9 { ShortAgrees(s[1..], k + 1); }
    }
  }

  /** How far the walk is: the position, what has been written, and the store. */
  datatype Walked = Walked(pos: nat, writer: Writer, store: Store)

  /** The next bytes go to the open part. */
  function Keep(whole: bytes, w: Walked, n: nat): Walked
    requires w.pos + n <= |whole|
  {
    w.(pos := w.pos + n, writer := Write(w.writer, whole[w.pos..w.pos + n]))
  }

  function KeepIfThere(whole: bytes, w: Walked, n: nat): Result<Walked, SplitError> {
    if w.pos + n > |whole| then Err(EndsInsideField) else Ok(Keep(whole, w, n))
  }

  /** The next bytes become a block. */
  function MoveIfThere(rules: Rules, whole: bytes, w: Walked, n: nat, chain: seq<nat>): Result<Walked, SplitError> {
    if w.pos + n > |whole| then Err(EndsInsideField)
    else
      var payload := whole[w.pos..w.pos + n];
      var id := rules.hash(payload);
      Ok(Walked(w.pos + n, Cut(w.writer, id, chain), Publish(w.store, id, File(payload))))
  }

  predicate Goes(whole: bytes, pos: nat, end: Option<nat>) {
    match end case Some(e) => pos < e case None => pos < |whole|
  }

  /** `_walk`. */
  function WalkMessage(rules: Rules, whole: bytes, w: Walked, name: Option<string>, end: Option<nat>, chain: seq<nat>)
    : (r: Result<Walked, SplitError>)
    requires w.pos <= |whole|
    ensures r.Ok? ==> w.pos <= r.value.pos <= |whole|
    ensures r.Ok? ==> r.value.pos == if end.Some? then end.value else |whole|
    ensures r.Ok? ==> |w.writer.done| <= |r.value.writer.done|
    decreases |whole| - w.pos, 1
  {
    if Goes(whole, w.pos, end) then
      match Field(rules, whole, w, name, chain)
      case Err(e) => Err(e)
      case Ok(w') => WalkMessage(rules, whole, w', name, end, chain)
    else if end.Some? && w.pos != end.value then Err(RunsPastEnd)
    else Ok(w)
  }

  /** One field: its tag, and what its wire type says follows. */
  function Field(rules: Rules, whole: bytes, w: Walked, name: Option<string>, chain: seq<nat>)
    : (r: Result<Walked, SplitError>)
    requires w.pos <= |whole|
    ensures r.Ok? ==> w.pos < r.value.pos <= |whole|
    ensures r.Ok? ==> |w.writer.done| <= |r.value.writer.done|
    decreases |whole| - w.pos, 0
  {
    match ShortVarint(whole[w.pos..], 0)
    case Err(e) => Err(e)
    case Ok(tag) =>
      var tagged := Keep(whole, w, tag.width);
      var number, wireType := tag.value / 8, tag.value % 8;
      if wireType == 2 then Delimited(rules, whole, tagged, name, number, chain)
      else Scalar(whole, tagged, wireType)
  }

  /** A field of any other wire type is kept, as long as the type says. */
  function Scalar(whole: bytes, w: Walked, wireType: nat): (r: Result<Walked, SplitError>)
    requires w.pos <= |whole|
    ensures r.Ok? ==> w.pos < r.value.pos <= |whole| && r.value == Keep(whole, w, r.value.pos - w.pos)
  {
    if wireType == 0 then
      match ShortVarint(whole[w.pos..], 0)
      case Err(e) => Err(e)
      case Ok(v) => Ok(Keep(whole, w, v.width))
    else if wireType == 1 then KeepIfThere(whole, w, 8)
    else if wireType == 5 then KeepIfThere(whole, w, 4)
    else Err(GroupsNotSupported(wireType))
  }

  /** A length-delimited field, after its tag. */
  function Delimited(rules: Rules, whole: bytes, w: Walked, name: Option<string>, number: nat, chain: seq<nat>)
    : (r: Result<Walked, SplitError>)
    requires w.pos <= |whole|
    ensures r.Ok? ==> w.pos < r.value.pos <= |whole|
    ensures r.Ok? ==> |w.writer.done| <= |r.value.writer.done|
    decreases |whole| - w.pos, 3
  {
    match ShortVarint(whole[w.pos..], 0)
    case Err(e) => Err(e)
    case Ok(v) => Payload(rules, whole, Keep(whole, w, v.width), name, number, v.value, chain + [w.pos])
  }

  /** The payload of a length-delimited field: a message of its own, a block, or kept. */
  function Payload(rules: Rules, whole: bytes, w: Walked, name: Option<string>, number: nat, length: nat, chain: seq<nat>)
    : (r: Result<Walked, SplitError>)
    requires w.pos <= |whole|
    ensures r.Ok? ==> r.value.pos == w.pos + length <= |whole|
    ensures r.Ok? ==> |w.writer.done| <= |r.value.writer.done|
    decreases |whole| - w.pos, 2
  {
    match FieldKind(rules, name, number)
    case Some(MessageKind(inner)) => WalkMessage(rules, whole, w, Some(inner), Some(w.pos + length), chain)
    case Some(OtherKind) =>
      if rules.shouldSplit(name.value, number, length)
      then MoveIfThere(rules, whole, w, length, chain)
      else KeepIfThere(whole, w, length)
    case None => KeepIfThere(whole, w, length)
  }

  // ------------------------------------------------------------ meaning preserved

  ghost predicate Preserves(rules: Rules, whole: bytes, w: Walked, w': Walked)
    requires w.pos <= w'.pos <= |whole|
  {
    && Extends(w.store, w'.store)
    && Covered(w'.store, w'.writer.done)
    && w.writer.done <= w'.writer.done
    && FillWriter(w'.writer, Contents(w'.store)) == FillWriter(w.writer, Contents(w.store)) + whole[w.pos..w'.pos]
  }

  ghost predicate Sane(env: Environment, w: Walked) {
    Sound(env, w.store) && Covered(w.store, w.writer.done)
  }

  lemma PreservesTwice(rules: Rules, whole: bytes, a: Walked, b: Walked, c: Walked)
    requires a.pos <= b.pos <= c.pos <= |whole|
    requires Preserves(rules, whole, a, b) && Preserves(rules, whole, b, c)
    ensures Preserves(rules, whole, a, c)
  {
    hide Covered, FillWriter;
    Safety.Assoc(FillWriter(a.writer, Contents(a.store)), whole[a.pos..b.pos], whole[b.pos..c.pos]);
    assert whole[a.pos..b.pos] + whole[b.pos..c.pos] == whole[a.pos..c.pos];
  }

  lemma KeepPreserves(env: Environment, rules: Rules, whole: bytes, w: Walked, n: nat)
    requires w.pos + n <= |whole| && Sane(env, w)
    ensures Preserves(rules, whole, w, Keep(whole, w, n)) && Sane(env, Keep(whole, w, n))
  {
    FillWrite(w.writer, whole[w.pos..w.pos + n], Contents(w.store));
  }

  lemma PayloadIsStored(env: Environment, s: Store, id: Id, payload: bytes)
    requires Sound(env, s) && env.hash(payload) == id && Injective(env.hash)
    ensures var s' := Publish(s, id, File(payload));
      Extends(s, s') && Sound(env, s') && Whole(s', id) && Expansion(s', id) == payload
  {
    hide FillWriter, Covered, Sound;
    assert [] + payload == payload;
    if id in s {
      SoundNames(env, s, id);
    } else {
      EmptyFills(s);
      FillWrite(EMPTY, payload, Contents(s));
      Safety.PublishKeeps(s, id, Write(EMPTY, payload));
      Safety.SoundGrows(env, s, s[id := File(payload)], id);
    }
  }

  lemma MovePreserves(env: Environment, rules: Rules, whole: bytes, w: Walked, n: nat, chain: seq<nat>)
    requires w.pos + n <= |whole| && Sane(env, w) && env.hash == rules.hash && Injective(rules.hash)
    ensures var w' := MoveIfThere(rules, whole, w, n, chain).value;
      Preserves(rules, whole, w, w') && Sane(env, w')
  {
    hide FillWriter, Covered, Sound, Cut, Whole, Expansion;
    var payload := whole[w.pos..w.pos + n];
    var id := rules.hash(payload);
    var store := Publish(w.store, id, File(payload));
    PayloadIsStored(env, w.store, id, payload);
    Referenced(env, w.store, store, w.writer, id, chain, Bytes(payload, Nil));
    assert Content(Bytes(payload, Nil)) == payload by { assert payload + [] == payload; assert Content(Nil) == []; }
    CutExtends(w.writer, id, chain);
  }

  lemma CutExtends(w: Writer, id: Id, chain: seq<nat>)
    ensures w.done <= Cut(w, id, chain).done
  {
  }

  lemma {:induction false} WalkPreserves(env: Environment, rules: Rules, whole: bytes, w: Walked, name: Option<string>,
                                         end: Option<nat>, chain: seq<nat>)
    requires w.pos <= |whole| && Sane(env, w) && env.hash == rules.hash && Injective(rules.hash)
    ensures var r := WalkMessage(rules, whole, w, name, end, chain);
      r.Ok? ==> Preserves(rules, whole, w, r.value) && Sane(env, r.value)
    decreases |whole| - w.pos, 1
  {
    hide Preserves, Sane, Injective, Field;
    if Goes(whole, w.pos, end) {
      FieldPreserves(env, rules, whole, w, name, chain);
      match Field(rules, whole, w, name, chain)
      case Err(_) =>
      case Ok(w') =>
        WalkPreserves(env, rules, whole, w', name, end, chain);
        match WalkMessage(rules, whole, w', name, end, chain)
        case Err(_) =>
        case Ok(w'') => PreservesTwice(rules, whole, w, w', w'');
    } else {
      NothingPreserved(env, rules, whole, w);
    }
  }

  lemma NothingPreserved(env: Environment, rules: Rules, whole: bytes, w: Walked)
    requires w.pos <= |whole| && Sane(env, w)
    ensures Preserves(rules, whole, w, w)
  {
    assert whole[w.pos..w.pos] == [];
  }

  lemma FieldUnfolds(rules: Rules, whole: bytes, w: Walked, name: Option<string>, chain: seq<nat>)
    requires w.pos <= |whole|
    ensures var tag := ShortVarint(whole[w.pos..], 0);
      Field(rules, whole, w, name, chain) ==
      if tag.Err? then Err(tag.error)
      else if tag.value.value % 8 == 2 then
        Delimited(rules, whole, Keep(whole, w, tag.value.width), name, tag.value.value / 8, chain)
      else Scalar(whole, Keep(whole, w, tag.value.width), tag.value.value % 8)
  {
  }

  lemma {:induction false} FieldPreserves(env: Environment, rules: Rules, whole: bytes, w: Walked, name: Option<string>,
                                          chain: seq<nat>)
    requires w.pos <= |whole| && Sane(env, w) && env.hash == rules.hash && Injective(rules.hash)
    ensures var r := Field(rules, whole, w, name, chain);
      r.Ok? ==> Preserves(rules, whole, w, r.value) && Sane(env, r.value)
    decreases |whole| - w.pos, 0
  {
    hide Preserves, Sane, Injective, Field, ShortVarint, Delimited, Scalar;
    FieldUnfolds(rules, whole, w, name, chain);
    var field, tag := Field(rules, whole, w, name, chain), ShortVarint(whole[w.pos..], 0);
    if field.Ok? {
      KeepPreserves(env, rules, whole, w, tag.value.width);
      var tagged := Keep(whole, w, tag.value.width);
      if tag.value.value % 8 == 2 {
        DelimitedPreserves(env, rules, whole, tagged, name, tag.value.value / 8, chain);
      } else {
        KeepPreserves(env, rules, whole, tagged, field.value.pos - tagged.pos);
      }
      PreservesTwice(rules, whole, w, tagged, field.value);
    }
  }

  lemma {:induction false} DelimitedPreserves(env: Environment, rules: Rules, whole: bytes, w: Walked, name: Option<string>,
                                              number: nat, chain: seq<nat>)
    requires w.pos <= |whole| && Sane(env, w) && env.hash == rules.hash && Injective(rules.hash)
    ensures var r := Delimited(rules, whole, w, name, number, chain);
      r.Ok? ==> Preserves(rules, whole, w, r.value) && Sane(env, r.value)
    decreases |whole| - w.pos, 3
  {
    hide Preserves, Sane, Injective, ShortVarint, Payload;
    var v := ShortVarint(whole[w.pos..], 0);
    var r := Delimited(rules, whole, w, name, number, chain);
    if r.Ok? {
      var sized := Keep(whole, w, v.value.width);
      KeepPreserves(env, rules, whole, w, v.value.width);
      PayloadPreserves(env, rules, whole, sized, name, number, v.value.value, chain + [w.pos], r.value);
      PreservesTwice(rules, whole, w, sized, r.value);
    }
  }

  lemma {:induction false} PayloadPreserves(env: Environment, rules: Rules, whole: bytes, w: Walked, name: Option<string>,
                                            number: nat, length: nat, chain: seq<nat>, w': Walked)
    requires w.pos <= |whole| && Sane(env, w) && env.hash == rules.hash && Injective(rules.hash)
    requires Payload(rules, whole, w, name, number, length, chain) == Ok(w')
    ensures w.pos <= w'.pos <= |whole| && Preserves(rules, whole, w, w') && Sane(env, w')
    decreases |whole| - w.pos, 2
  {
    hide Preserves, Sane, Injective;
    match FieldKind(rules, name, number)
    case Some(MessageKind(inner)) => WalkPreserves(env, rules, whole, w, Some(inner), Some(w.pos + length), chain);
    case Some(OtherKind) =>
      if rules.shouldSplit(name.value, number, length) {
        MovePreserves(env, rules, whole, w, length, chain);
      } else {
        KeepPreserves(env, rules, whole, w, length);
      }
    case None => KeepPreserves(env, rules, whole, w, length);
  }

  /** A split block's entries stream the very bytes that were walked. */
  lemma SplitPreserves(env: Environment, rules: Rules, whole: bytes, store: Store, name: Option<string>)
    requires Sound(env, store) && env.hash == rules.hash && Injective(rules.hash)
    ensures var r := WalkMessage(rules, whole, Walked(0, EMPTY, store), name, None, []);
      r.Ok? ==>
        && Extends(store, r.value.store) && Sound(env, r.value.store)
        && Covered(r.value.store, Close(r.value.writer))
        && Fill(Close(r.value.writer), Contents(r.value.store)) == whole
  {
    hide WalkMessage, Sound, Injective;
    var start := Walked(0, EMPTY, store);
    EmptyFills(store);
    WalkPreserves(env, rules, whole, start, name, None, []);
    match WalkMessage(rules, whole, start, name, None, [])
    case Err(_) =>
    case Ok(w) =>
      FillClose(w.writer, Contents(w.store));
      assert [] + whole[0..|whole|] == whole;
  }

  // ------------------------------------------------------------ chains that lead

  /** The entries written between two moments lead to their blocks, inside what was walked. */
  ghost predicate WalkLeading(whole: bytes, w: Walked, w': Walked, chain: seq<nat>, content: Id -> bytes) {
    Leading(whole, w.pos, w.writer, w'.pos, w'.writer, chain, content)
  }

  /** What the writer holds is what has been walked. */
  ghost predicate Abreast(w: Walked, content: Id -> bytes) {
    |FillWriter(w.writer, content)| == w.pos
  }

  lemma WalkLeadingTwice(whole: bytes, a: Walked, b: Walked, c: Walked, chain: seq<nat>, content: Id -> bytes)
    requires WalkLeading(whole, a, b, chain, content) && WalkLeading(whole, b, c, chain, content)
    ensures WalkLeading(whole, a, c, chain, content)
  {
    hide Leading;
    LeadingTwice(whole, a.pos, a.writer, b.pos, b.writer, c.pos, c.writer, chain, content);
  }

  lemma KeepLeads(whole: bytes, w: Walked, n: nat, chain: seq<nat>, content: Id -> bytes)
    requires w.pos + n <= |whole| && Abreast(w, content)
    ensures WalkLeading(whole, w, Keep(whole, w, n), chain, content) && Abreast(Keep(whole, w, n), content)
  {
    hide Leading;
    FillWrite(w.writer, whole[w.pos..w.pos + n], content);
    NothingLeads(whole, w.pos, w.writer, w.pos + n, Keep(whole, w, n).writer, chain, content);
  }

  lemma MoveLeads(rules: Rules, whole: bytes, at: nat, w: Walked, n: nat, chain: seq<nat>, content: Id -> bytes)
    requires States(whole, at, w.pos, n) && Abreast(w, content)
    requires |content(rules.hash(whole[w.pos..w.pos + n]))| == n
    ensures var w' := MoveIfThere(rules, whole, w, n, chain + [at]).value;
      WalkLeading(whole, w.(pos := at), w', chain, content) && Abreast(w', content)
  {
    hide FillWriter, Publish, Leading, Decode;
    var id := rules.hash(whole[w.pos..w.pos + n]);
    FillCut(w.writer, id, chain + [at], content);
    CutLeads(whole, at, w.pos, w.writer, n, id, chain, content);
  }

  lemma MovedIsThere(env: Environment, rules: Rules, whole: bytes, w: Walked, n: nat, chain: seq<nat>, final: Store)
    requires w.pos + n <= |whole| && Sane(env, w) && env.hash == rules.hash && Injective(rules.hash)
    requires Extends(MoveIfThere(rules, whole, w, n, chain).value.store, final)
    ensures Contents(final)(rules.hash(whole[w.pos..w.pos + n])) == whole[w.pos..w.pos + n]
  {
    hide Preserves;
    var w' := MoveIfThere(rules, whole, w, n, chain).value;
    MovePreserves(env, rules, whole, w, n, chain);
    var id := rules.hash(whole[w.pos..w.pos + n]);
    SoundNames(env, w'.store, id);
    ExpansionGrows(w'.store, final, id);
  }

  lemma {:induction false} WalkLeads(env: Environment, rules: Rules, whole: bytes, w: Walked, name: Option<string>,
                                     end: Option<nat>, chain: seq<nat>, w': Walked, final: Store)
    requires w.pos <= |whole| && Sane(env, w) && env.hash == rules.hash && Injective(rules.hash)
    requires WalkMessage(rules, whole, w, name, end, chain) == Ok(w') && Extends(w'.store, final)
    requires Abreast(w, Contents(final))
    ensures WalkLeading(whole, w, w', chain, Contents(final)) && Abreast(w', Contents(final))
    decreases |whole| - w.pos, 1
  {
    hide Sane, Injective, Field, Abreast, WalkLeading, Contents, Covered, FillWriter;
    if Goes(whole, w.pos, end) {
      var next := Field(rules, whole, w, name, chain).value;
      FieldPreserves(env, rules, whole, w, name, chain);
      WalkPreserves(env, rules, whole, next, name, end, chain);
      FieldLeads(env, rules, whole, w, name, chain, next, final);
      WalkLeads(env, rules, whole, next, name, end, chain, w', final);
      WalkLeadingTwice(whole, w, next, w', chain, Contents(final));
    } else {
      KeptLeads(whole, w, w, chain, Contents(final));
    }
  }

  lemma {:induction false} FieldLeads(env: Environment, rules: Rules, whole: bytes, w: Walked, name: Option<string>,
                                      chain: seq<nat>, w': Walked, final: Store)
    requires w.pos <= |whole| && Sane(env, w) && env.hash == rules.hash && Injective(rules.hash)
    requires Field(rules, whole, w, name, chain) == Ok(w') && Extends(w'.store, final)
    requires Abreast(w, Contents(final))
    ensures WalkLeading(whole, w, w', chain, Contents(final)) && Abreast(w', Contents(final))
    decreases |whole| - w.pos, 0
  {
    hide Sane, Injective, Abreast, WalkLeading, Contents, ShortVarint, Payload, Preserves;
    var content := Contents(final);
    var tag := ShortVarint(whole[w.pos..], 0).value;
    var tagged := Keep(whole, w, tag.width);
    KeepLeads(whole, w, tag.width, chain, content);
    KeepPreserves(env, rules, whole, w, tag.width);
    if tag.value % 8 == 2 {
      var v := ShortVarint(whole[tagged.pos..], 0).value;
      var sized := Keep(whole, tagged, v.width);
      KeepPreserves(env, rules, whole, tagged, v.width);
      KeepLeads(whole, tagged, v.width, chain, content);
      ShortAgrees(whole[tagged.pos..], 0);
      PayloadLeads(env, rules, whole, tagged.pos, sized, name, tag.value / 8, v.value, chain, w', final);
      PayloadPreserves(env, rules, whole, sized, name, tag.value / 8, v.value, chain + [tagged.pos], w');
      PayloadExtends(rules, whole, sized, w');
      KeptLeads(whole, w, sized.(pos := tagged.pos), chain, content);
      WalkLeadingTwice(whole, w, sized.(pos := tagged.pos), w', chain, content);
    } else {
      KeepLeads(whole, tagged, w'.pos - tagged.pos, chain, content);
      WalkLeadingTwice(whole, w, tagged, w', chain, content);
    }
  }

  lemma KeptLeads(whole: bytes, w: Walked, w': Walked, chain: seq<nat>, content: Id -> bytes)
    requires w.pos <= w'.pos <= |whole| && w'.writer.done == w.writer.done
    ensures WalkLeading(whole, w, w', chain, content)
  {
    NothingLeads(whole, w.pos, w.writer, w'.pos, w'.writer, chain, content);
  }

  lemma PayloadExtends(rules: Rules, whole: bytes, w: Walked, w': Walked)
    requires w.pos <= w'.pos <= |whole| && Preserves(rules, whole, w, w')
    ensures w.writer.done <= w'.writer.done
  {
  }

  lemma SubWalkLeads(whole: bytes, at: nat, w: Walked, w': Walked, chain: seq<nat>, content: Id -> bytes)
    requires w.pos <= w'.pos && States(whole, at, w.pos, w'.pos - w.pos)
    requires WalkLeading(whole, w, w', chain + [at], content)
    ensures WalkLeading(whole, w.(pos := at), w', chain, content)
  {
    hide Leading, States;
    LeadingBelow(whole, at, w.pos, w.writer, w'.pos, w'.writer, chain, content);
  }

  lemma {:induction false} PayloadLeads(env: Environment, rules: Rules, whole: bytes, at: nat, w: Walked,
                                        name: Option<string>,
                                        number: nat, length: nat, chain: seq<nat>, w': Walked, final: Store)
    requires w.pos <= |whole| && Sane(env, w) && env.hash == rules.hash && Injective(rules.hash)
    requires Payload(rules, whole, w, name, number, length, chain + [at]) == Ok(w') && Extends(w'.store, final)
    requires States(whole, at, w.pos, length) && Abreast(w, Contents(final))
    ensures WalkLeading(whole, w.(pos := at), w', chain, Contents(final)) && Abreast(w', Contents(final))
    decreases |whole| - w.pos, 2
  {
    hide Sane, Injective, Abreast, WalkLeading, Contents, WalkMessage, Decode;
    var content := Contents(final);
    match FieldKind(rules, name, number)
    case Some(MessageKind(inner)) =>
      WalkLeads(env, rules, whole, w, Some(inner), Some(w.pos + length), chain + [at], w', final);
      SubWalkLeads(whole, at, w, w', chain, content);
    case Some(OtherKind) =>
      if rules.shouldSplit(name.value, number, length) {
        MovedIsThere(env, rules, whole, w, length, chain + [at], final);
        MoveLeads(rules, whole, at, w, length, chain, content);
      } else {
        KeepLeads(whole, w, length, chain, content);
        KeptLeads(whole, w.(pos := at), w', chain, content);
      }
    case None =>
      KeepLeads(whole, w, length, chain, content);
      KeptLeads(whole, w.(pos := at), w', chain, content);
  }

  /**
    In a split block, every reference's chain lists length varints of the walked bytes whose
    regions nest, and the last of them states the block's length right before its bytes.
    */
  lemma SplitLeads(env: Environment, rules: Rules, whole: bytes, store: Store, name: Option<string>, w: Walked, j: nat)
    requires Sound(env, store) && env.hash == rules.hash && Injective(rules.hash)
    requires WalkMessage(rules, whole, Walked(0, EMPTY, store), name, None, []) == Ok(w)
    requires j < |w.writer.done| && w.writer.done[j].Ref?
    ensures var e, content := w.writer.done[j], Contents(w.store);
      && Leads(whole, e.chain, 0, |whole|, |Fill(w.writer.done[..j], content)|, |content(e.id)|)
      && At(whole, |Fill(w.writer.done[..j], content)|, content(e.id))
  {
    hide WalkMessage, Sound, Injective, Fill, FillWriter, Covered, Leads, At;
    var start := Walked(0, EMPTY, store);
    var content := Contents(w.store);
    EmptyFills(store);
    EmptyFills(w.store);
    assert Extends(w.store, w.store);
    WalkLeads(env, rules, whole, start, name, None, [], w, w.store);
    SplitPreserves(env, rules, whole, store, name);
    var e, done := w.writer.done[j], w.writer.done;
    assert RefLeads(e, [], whole, 0, |whole|, |Fill(done[..j], content)|, content);
    assert e.chain[0..] == e.chain;
    EntryStands(w.writer, j, content);
  }

  lemma EntryStands(w: Writer, j: nat, content: Id -> bytes)
    requires j < |w.done| && w.done[j].Ref?
    ensures At(Fill(Close(w), content), |Fill(w.done[..j], content)|, content(w.done[j].id))
  {
    var e, es := w.done[j], Close(w);
    assert es == w.done[..j] + [e] + es[j + 1..];
    FillAppend(w.done[..j] + [e], es[j + 1..], content);
    FillAppend(w.done[..j], [e], content);
    assert [e][1..] == [];
  }

  // ------------------------------------------------------- the walk and the format

  /** A varint has at most ten bytes. */
  const MOST := 10

  /** What the format and the policy say becomes of a field; a message is looked into. */
  datatype Fate = Kept | Split | Inside(name: string)

  function FateOf(rules: Rules, name: Option<string>, f: WireFormat.Field): Fate {
    if !f.value.Payload? then Kept
    else
      match FieldKind(rules, name, f.number)
      case None => Kept
      case Some(MessageKind(inner)) => Inside(inner)
      case Some(OtherKind) => if rules.shouldSplit(name.value, f.number, |f.value.content|) then Split else Kept
  }

  /** The bytes are a message, and so is every field that the schema says is one. */
  predicate Accepts(rules: Rules, name: Option<string>, b: bytes)
    decreases |b|
  {
    b == [] ||
    match FirstField(b, MOST)
    case None => false
    case Some(f) =>
      && (match FateOf(rules, name, f) case Inside(inner) => Accepts(rules, Some(inner), f.value.content) case _ => true)
      && Accepts(rules, name, b[f.width..])
  }

  /** And the policy moves nothing of it out. */
  predicate Stays(rules: Rules, name: Option<string>, b: bytes)
    decreases |b|
  {
    b == [] ||
    match FirstField(b, MOST)
    case None => false
    case Some(f) =>
      && (match FateOf(rules, name, f)
          case Kept => true
          case Split => false
          case Inside(inner) => Stays(rules, Some(inner), f.value.content))
      && Stays(rules, name, b[f.width..])
  }

  lemma KeepTwice(whole: bytes, w: Walked, m: nat, n: nat)
    requires w.pos + m + n <= |whole|
    ensures Keep(whole, Keep(whole, w, m), n) == Keep(whole, w, m + n)
  {
    assert whole[w.pos..w.pos + m] + whole[w.pos + m..w.pos + m + n] == whole[w.pos..w.pos + m + n];
    Safety.Assoc(w.writer.open, whole[w.pos..w.pos + m], whole[w.pos + m..w.pos + m + n]);
  }

  /** The two varint readers are one. */
  lemma ShortIsVarint(s: bytes)
    ensures match VarintOf(s, MOST)
            case None => ShortVarint(s, 0).Err?
            case Some(r) => ShortVarint(s, 0) == Ok(r)
  {
    ShortAgrees(s, 0);
  }

  /** The walk reads a field as the format says, and fails where there is none. */
  lemma WalksField(rules: Rules, whole: bytes, w: Walked, name: Option<string>, chain: seq<nat>)
    requires w.pos <= |whole|
    ensures match FirstField(whole[w.pos..], MOST)
            case None => Field(rules, whole, w, name, chain).Err?
            case Some(f) =>
              if f.value.Payload? then
                var n := |f.value.content|;
                Field(rules, whole, w, name, chain) ==
                Payload(rules, whole, Keep(whole, w, f.width - n), name, f.number, n, chain + [w.pos + f.tag])
              else Field(rules, whole, w, name, chain) == Ok(Keep(whole, w, f.width))
  {
    hide ShortVarint, VarintOf, Payload, Keep;
    FieldUnfolds(rules, whole, w, name, chain);
    ShortIsVarint(whole[w.pos..]);
    var t := VarintOf(whole[w.pos..], MOST);
    if t.Some? {
      var n := t.value.width;
      KeepMoves(whole, w, n);
      assert whole[w.pos..][n..] == whole[w.pos + n..];
      ShortIsVarint(whole[w.pos + n..]);
      if t.value.value % 8 == 2 {
        PayloadWalks(rules, whole, w, name, chain, t.value);
      } else {
        ScalarWalks(rules, whole, w, name, chain, t.value);
      }
    }
  }

  lemma KeepMoves(whole: bytes, w: Walked, n: nat)
    requires w.pos + n <= |whole|
    ensures Keep(whole, w, n).pos == w.pos + n
  {
  }

  lemma ScalarWalks(rules: Rules, whole: bytes, w: Walked, name: Option<string>, chain: seq<nat>, t: Varint.Read)
    requires w.pos <= |whole| && VarintOf(whole[w.pos..], MOST) == Some(t) && t.value % 8 != 2
    ensures var r := Scalar(whole, Keep(whole, w, t.width), t.value % 8);
      match FirstField(whole[w.pos..], MOST)
      case None => r.Err?
      case Some(f) => !f.value.Payload? && r == Ok(Keep(whole, w, f.width))
  {
    hide ShortVarint, VarintOf;
    var tagged := Keep(whole, w, t.width);
    var rest := whole[w.pos..][t.width..];
    assert rest == whole[tagged.pos..];
    ShortIsVarint(rest);
    var f := FirstField(whole[w.pos..], MOST);
    if f.Some? { KeepTwice(whole, w, t.width, f.value.width - t.width); }
  }

  lemma PayloadWalks(rules: Rules, whole: bytes, w: Walked, name: Option<string>, chain: seq<nat>, t: Varint.Read)
    requires w.pos <= |whole| && VarintOf(whole[w.pos..], MOST) == Some(t) && t.value % 8 == 2
    ensures var r := Delimited(rules, whole, Keep(whole, w, t.width), name, t.value / 8, chain);
      match FirstField(whole[w.pos..], MOST)
      case None => r.Err?
      case Some(f) =>
        && f.value.Payload?
        && var n := |f.value.content|;
          r == Payload(rules, whole, Keep(whole, w, f.width - n), name, f.number, n, chain + [w.pos + f.tag])
  {
    hide ShortVarint, VarintOf, Payload;
    var tagged := Keep(whole, w, t.width);
    var rest := whole[w.pos..][t.width..];
    assert rest == whole[tagged.pos..];
    ShortIsVarint(rest);
    var v := VarintOf(rest, MOST);
    if v.Some? {
      KeepTwice(whole, w, t.width, v.value.width);
      PayloadFits(rules, whole, Keep(whole, tagged, v.value.width), name, t.value / 8, v.value.value, chain + [tagged.pos]);
    }
  }

  lemma PayloadFits(rules: Rules, whole: bytes, w: Walked, name: Option<string>, number: nat, length: nat, chain: seq<nat>)
    requires w.pos <= |whole|
    ensures Payload(rules, whole, w, name, number, length, chain).Ok? ==> w.pos + length <= |whole|
  {
  }

  /** Where a stretch of bytes is all there is before the end of the walk. */
  predicate EndsAfter(whole: bytes, pos: nat, n: nat, end: Option<nat>) {
    (match end case Some(e) => e case None => |whole|) == pos + n
  }

  /** The fields of a stretch are those of what it stands in. */
  lemma FieldThere(whole: bytes, pos: nat, b: bytes)
    requires At(whole, pos, b)
    ensures FirstField(b, MOST).Some? ==>
      && FirstField(whole[pos..], MOST) == FirstField(b, MOST)
      && At(whole, pos + FirstField(b, MOST).value.width, b[FirstField(b, MOST).value.width..])
    ensures FirstField(whole[pos..], MOST).Some? && FirstField(whole[pos..], MOST).value.width <= |b| ==>
      FirstField(b, MOST) == FirstField(whole[pos..], MOST)
  {
    hide FirstField;
    var more := whole[pos + |b|..];
    assert whole[pos..] == b + more by { assert whole[pos..pos + |b|] + more == whole[pos..]; }
    FieldCut(b, more, MOST);
    var f := FirstField(b, MOST);
    if f.Some? {
      assert b == b[..f.value.width] + b[f.value.width..];
      AtSplit(whole, pos, b[..f.value.width], b[f.value.width..]);
    }
  }

  lemma PayloadThere(whole: bytes, pos: nat, f: WireFormat.Field)
    requires pos <= |whole| && FirstField(whole[pos..], MOST) == Some(f) && f.value.Payload?
    ensures At(whole, pos + f.width - |f.value.content|, f.value.content)
  {
    hide FirstField;
    var n := |f.value.content|;
    assert whole[pos..][f.width - n..f.width] == whole[pos + f.width - n..pos + f.width];
  }

  /** What the policy leaves is kept as it stands, wherever it stands. */
  lemma {:induction false} StaysPut(rules: Rules, whole: bytes, w: Walked, name: Option<string>, end: Option<nat>,
                                    chain: seq<nat>, b: bytes)
    requires At(whole, w.pos, b) && Stays(rules, name, b)
    requires match end case Some(e) => w.pos + |b| <= e case None => true
    ensures WalkMessage(rules, whole, w, name, end, chain) == WalkMessage(rules, whole, Keep(whole, w, |b|), name, end, chain)
    decreases |b|
  {
    hide FirstField, Payload, WalkMessage, Field, Keep;
    if b == [] {
      KeepNothing(whole, w);
    } else {
      var f := FirstField(b, MOST).value;
      FieldThere(whole, w.pos, b);
      KeepMoves(whole, w, f.width);
      StaysFirst(rules, whole, w, name, chain, f);
      if FateOf(rules, name, f).Inside? {
        var n, inner := |f.value.content|, FateOf(rules, name, f).name;
        var sized := Keep(whole, w, f.width - n);
        KeepMoves(whole, w, f.width - n);
        PayloadThere(whole, w.pos, f);
        StaysPut(rules, whole, sized, Some(inner), Some(sized.pos + n), chain + [w.pos + f.tag], f.value.content);
        KeepTwice(whole, w, f.width - n, n);
        WalkStops(rules, whole, Keep(whole, w, f.width), Some(inner), chain + [w.pos + f.tag]);
      }
      StepOn(rules, whole, w, name, end, chain, Keep(whole, w, f.width));
      StaysPut(rules, whole, Keep(whole, w, f.width), name, end, chain, b[f.width..]);
      KeepTwice(whole, w, f.width, |b| - f.width);
    }
  }

  lemma KeepNothing(whole: bytes, w: Walked)
    requires w.pos <= |whole|
    ensures Keep(whole, w, 0) == w
  {
    assert whole[w.pos..w.pos] == [] && w.writer.open + [] == w.writer.open;
  }

  /** One field: kept, or walked as the message it is. */
  lemma StaysFirst(rules: Rules, whole: bytes, w: Walked, name: Option<string>, chain: seq<nat>, f: WireFormat.Field)
    requires w.pos <= |whole| && FirstField(whole[w.pos..], MOST) == Some(f)
    ensures match FateOf(rules, name, f)
            case Kept => Field(rules, whole, w, name, chain) == Ok(Keep(whole, w, f.width))
            case Split => true
            case Inside(inner) =>
              var n := |f.value.content|;
              Field(rules, whole, w, name, chain) ==
              WalkMessage(rules, whole, Keep(whole, w, f.width - n), Some(inner), Some(w.pos + f.width), chain + [w.pos + f.tag])
  {
    hide FirstField, Field, WalkMessage;
    WalksField(rules, whole, w, name, chain);
    if f.value.Payload? { KeepTwice(whole, w, f.width - |f.value.content|, |f.value.content|); }
  }

  lemma WalkStops(rules: Rules, whole: bytes, w: Walked, name: Option<string>, chain: seq<nat>)
    requires w.pos <= |whole|
    ensures WalkMessage(rules, whole, w, name, Some(w.pos), chain) == Ok(w)
  {
  }

  lemma StepOn(rules: Rules, whole: bytes, w: Walked, name: Option<string>, end: Option<nat>, chain: seq<nat>, next: Walked)
    requires w.pos <= |whole| && Goes(whole, w.pos, end) && Field(rules, whole, w, name, chain) == Ok(next)
    ensures WalkMessage(rules, whole, w, name, end, chain) == WalkMessage(rules, whole, next, name, end, chain)
  {
  }

  lemma WalkEnds(rules: Rules, whole: bytes, w: Walked, name: Option<string>, end: Option<nat>, chain: seq<nat>)
    requires w.pos <= |whole| && EndsAfter(whole, w.pos, 0, end)
    ensures WalkMessage(rules, whole, w, name, end, chain) == Ok(w)
  {
  }

  /** The walk accepts every stretch that is a message of its type. */
  lemma {:induction false} WalkAccepts(rules: Rules, whole: bytes, w: Walked, name: Option<string>, end: Option<nat>,
                                       chain: seq<nat>, b: bytes)
    requires At(whole, w.pos, b) && EndsAfter(whole, w.pos, |b|, end) && Accepts(rules, name, b)
    ensures WalkMessage(rules, whole, w, name, end, chain).Ok?
    decreases |b|
  {
    hide FirstField, Field, WalkMessage, FateOf;
    if b == [] {
      WalkEnds(rules, whole, w, name, end, chain);
    } else {
      var f := FirstField(b, MOST).value;
      FieldThere(whole, w.pos, b);
      if FateOf(rules, name, f).Inside? {
        InsidePayload(rules, name, f);
        PayloadThere(whole, w.pos, f);
        WalkAccepts(rules, whole, Keep(whole, w, f.width - |f.value.content|), Some(FateOf(rules, name, f).name),
                    Some(w.pos + f.width), chain + [w.pos + f.tag], f.value.content);
      }
      FieldTaken(rules, whole, w, name, chain, f);
      var next := Field(rules, whole, w, name, chain).value;
      StepOn(rules, whole, w, name, end, chain, next);
      WalkAccepts(rules, whole, next, name, end, chain, b[f.width..]);
    }
  }

  lemma InsidePayload(rules: Rules, name: Option<string>, f: WireFormat.Field)
    ensures FateOf(rules, name, f).Inside? ==> f.value.Payload?
  {
  }

  /** A field is taken unless it is a message that is not. */
  lemma FieldTaken(rules: Rules, whole: bytes, w: Walked, name: Option<string>, chain: seq<nat>, f: WireFormat.Field)
    requires w.pos <= |whole| && FirstField(whole[w.pos..], MOST) == Some(f)
    requires FateOf(rules, name, f).Inside? ==>
      WalkMessage(rules, whole, Keep(whole, w, f.width - |f.value.content|), Some(FateOf(rules, name, f).name),
                  Some(w.pos + f.width), chain + [w.pos + f.tag]).Ok?
    ensures var r := Field(rules, whole, w, name, chain); r.Ok? && r.value.pos == w.pos + f.width
  {
    hide FirstField, Field, Payload, WalkMessage;
    StaysFirst(rules, whole, w, name, chain, f);
    WalksField(rules, whole, w, name, chain);
    FieldEnds(rules, whole, w, name, chain);
    if FateOf(rules, name, f).Split? {
      var n := |f.value.content|;
      PayloadThere(whole, w.pos, f);
      PayloadSplits(rules, whole, Keep(whole, w, f.width - n), name, f.number, n, chain + [w.pos + f.tag]);
    }
  }

  lemma PayloadSplits(rules: Rules, whole: bytes, w: Walked, name: Option<string>, number: nat, length: nat, chain: seq<nat>)
    requires w.pos + length <= |whole| && FieldKind(rules, name, number) == Some(OtherKind)
    requires rules.shouldSplit(name.value, number, length)
    ensures Payload(rules, whole, w, name, number, length, chain) == MoveIfThere(rules, whole, w, length, chain)
  {
  }

  /** A field that is taken ends where the format says. */
  lemma FieldEnds(rules: Rules, whole: bytes, w: Walked, name: Option<string>, chain: seq<nat>)
    requires w.pos <= |whole|
    ensures var r, f := Field(rules, whole, w, name, chain), FirstField(whole[w.pos..], MOST);
      r.Ok? ==> f.Some? && r.value.pos == w.pos + f.value.width
  {
    hide FirstField, Field, Payload;
    WalksField(rules, whole, w, name, chain);
    var f := FirstField(whole[w.pos..], MOST);
    if f.Some? && f.value.value.Payload? {
      var n := |f.value.value.content|;
      PayloadEnds(rules, whole, Keep(whole, w, f.value.width - n), name, f.value.number, n, chain + [w.pos + f.value.tag]);
    }
  }

  lemma PayloadEnds(rules: Rules, whole: bytes, w: Walked, name: Option<string>, number: nat, length: nat, chain: seq<nat>)
    requires w.pos <= |whole|
    ensures var r := Payload(rules, whole, w, name, number, length, chain); r.Ok? ==> r.value.pos == w.pos + length
  {
  }

  lemma WalkFirst(rules: Rules, whole: bytes, w: Walked, name: Option<string>, end: Option<nat>, chain: seq<nat>)
    requires w.pos <= |whole| && Goes(whole, w.pos, end) && WalkMessage(rules, whole, w, name, end, chain).Ok?
    ensures var r := Field(rules, whole, w, name, chain); r.Ok? && WalkMessage(rules, whole, r.value, name, end, chain).Ok?
  {
    hide Field;
  }

  /** And nothing else. */
  lemma {:induction false} WalkAcceptsOnly(rules: Rules, whole: bytes, w: Walked, name: Option<string>, end: Option<nat>,
                                           chain: seq<nat>, b: bytes)
    requires At(whole, w.pos, b) && EndsAfter(whole, w.pos, |b|, end)
    requires WalkMessage(rules, whole, w, name, end, chain).Ok?
    ensures Accepts(rules, name, b)
    decreases |b|
  {
    hide FirstField, Field, Payload, WalkMessage, FateOf;
    if b != [] {
      WalkFirst(rules, whole, w, name, end, chain);
      var next := Field(rules, whole, w, name, chain).value;
      FieldEnds(rules, whole, w, name, chain);
      FieldThere(whole, w.pos, b);
      WalkReaches(rules, whole, next, name, end, chain);
      var f := FirstField(b, MOST).value;
      StaysFirst(rules, whole, w, name, chain, f);
      if FateOf(rules, name, f).Inside? {
        InsidePayload(rules, name, f);
        var n := |f.value.content|;
        PayloadThere(whole, w.pos, f);
        WalkAcceptsOnly(rules, whole, Keep(whole, w, f.width - n), Some(FateOf(rules, name, f).name), Some(w.pos + f.width),
                        chain + [w.pos + f.tag], f.value.content);
      }
      WalkAcceptsOnly(rules, whole, next, name, end, chain, b[f.width..]);
    }
  }

  lemma WalkReaches(rules: Rules, whole: bytes, w: Walked, name: Option<string>, end: Option<nat>, chain: seq<nat>)
    requires w.pos <= |whole| && WalkMessage(rules, whole, w, name, end, chain).Ok?
    ensures w.pos <= (match end case Some(e) => e case None => |whole|)
  {
  }

  /** The splitter's walk succeeds on the messages of the wire format, and on nothing else. */
  lemma WalkIsTheFormat(rules: Rules, name: Option<string>, b: bytes, store: Store)
    ensures WalkMessage(rules, b, Walked(0, EMPTY, store), name, None, []).Ok? <==> Accepts(rules, name, b)
  {
    hide WalkMessage, Accepts;
    var w := Walked(0, EMPTY, store);
    assert b[0..0 + |b|] == b;
    if Accepts(rules, name, b) { WalkAccepts(rules, b, w, name, None, [], b); }
    if WalkMessage(rules, b, w, name, None, []).Ok? { WalkAcceptsOnly(rules, b, w, name, None, [], b); }
  }

  // ---------------------------------------------------------- what the builder makes

  const VARINT_LIMIT := 0x40_0000_0000_0000_0000

  predicate LengthTag(t: byte) {
    t < 128 && t % 8 == 2
  }

  /**
    The document is a message of the named type, and its holes are the very fields the
    policy moves out.
    */
  ghost predicate Fits(rules: Rules, name: string, d: Doc)
    decreases d
  {
    match d
    case End => true
    case Raw(b, r) => Stays(rules, Some(name), b) && Fits(rules, name, r)
    case Hole(t, id, h, _, r) =>
      && LengthTag(t) && FieldKind(rules, Some(name), t / 8) == Some(OtherKind)
      && rules.shouldSplit(name, t / 8, |h|) && rules.hash(h) == id && |h| < VARINT_LIMIT
      && Fits(rules, name, r)
    case Sub(t, i, r) =>
      && LengthTag(t) && |Text(i)| < VARINT_LIMIT
      && (match FieldKind(rules, Some(name), t / 8)
          case Some(MessageKind(inner)) => Fits(rules, inner, i)
          case _ => false)
      && Fits(rules, name, r)
  }

  /** The same for a document whose length varints are given as they stand. */
  ghost predicate FitsLoosely(rules: Rules, name: string, l: Loose)
    decreases l
  {
    match l
    case Done => true
    case Plain(b, r) => Stays(rules, Some(name), b) && FitsLoosely(rules, name, r)
    case Moved(t, id, v, b, r) =>
      && LengthTag(t) && FieldKind(rules, Some(name), t / 8) == Some(OtherKind)
      && rules.shouldSplit(name, t / 8, |b|) && rules.hash(b) == id && |v| <= 10
      && FitsLoosely(rules, name, r)
    case Around(t, v, i, r) =>
      && LengthTag(t) && |v| <= 10
      && (match FieldKind(rules, Some(name), t / 8)
          case Some(MessageKind(inner)) => FitsLoosely(rules, inner, i)
          case _ => false)
      && FitsLoosely(rules, name, r)
  }

  lemma {:induction false} FitsLoosened(rules: Rules, name: string, d: Doc)
    requires Fits(rules, name, d)
    ensures FitsLoosely(rules, name, Loosened(d))
    decreases d
  {
    hide Encode, Stays;
    match d
    case End =>
    case Raw(_, r) => FitsLoosened(rules, name, r);
    case Hole(_, _, h, _, r) => TenBytes(|h|); FitsLoosened(rules, name, r);
    case Sub(t, i, r) =>
      TenBytes(|Text(i)|);
      FitsLoosened(rules, name, r);
      FitsLoosened(rules, FieldKind(rules, Some(name), t / 8).value.name, i);
  }

  /** The tag and the length of a length-delimited field, at hand. */
  lemma RecordHead(rules: Rules, whole: bytes, w: Walked, t: byte, v: bytes, payload: bytes, name: string, chain: seq<nat>)
    requires At(whole, w.pos, [t] + v + payload) && LengthTag(t) && Spells(v, |payload|) && |v| <= 10
    ensures var sized := Walked(w.pos + 1 + |v|, Write(w.writer, [t] + v), w.store);
      && sized.pos <= |whole| && At(whole, sized.pos, payload)
      && Field(rules, whole, w, Some(name), chain) ==
         Payload(rules, whole, sized, Some(name), t / 8, |payload|, chain + [w.pos + 1])
  {
    hide Payload;
    AtSplit(whole, w.pos, [t] + v, payload);
    AtSplit(whole, w.pos, [t], v);
    assert whole[w.pos] == t by { assert whole[w.pos..w.pos + 1][0] == t; }
    assert ShortVarint(whole[w.pos..], 0) == Ok(Varint.Read(t, 1));
    var after := whole[w.pos + 1..];
    assert after == v + after[|v|..] by { assert whole[w.pos + 1..w.pos + 1 + |v|] == after[..|v|]; }
    SpellsOn(v, |payload|, after[|v|..]);
    ShortAgrees(after, 0);
    var tagged := Keep(whole, w, 1);
    assert tagged.writer == Write(w.writer, [t]);
    Safety.Assoc(w.writer.open, [t], v);
  }

  /** Where a walk that has the document before it, and nothing more, must stop. */
  predicate EndsWith(whole: bytes, pos: nat, l: Loose, end: Option<nat>) {
    At(whole, pos, LooseText(l)) && (match end case Some(e) => e case None => |whole|) == pos + |LooseText(l)|
  }

  /** Walking a document's text lays out the document, whatever its varints look like. */
  lemma {:induction false} WalkLays(rules: Rules, whole: bytes, w: Walked, name: string, end: Option<nat>,
                                    chain: seq<nat>, l: Loose)
    requires EndsWith(whole, w.pos, l, end) && FitsLoosely(rules, name, l) && WellFormed(l)
    ensures var r := WalkMessage(rules, whole, w, Some(name), end, chain);
      r.Ok? && r.value.writer == LooseLay(l, chain, w.pos, w.writer)
    decreases l, 2
  {
    hide Payload, Field, Stays, WalkMessage, Spells;
    match l
    case Done => WalkEnds(rules, whole, w, Some(name), end, chain);
    case Plain(b, r) =>
      AtSplit(whole, w.pos, b, LooseText(r));
      StaysPut(rules, whole, w, Some(name), end, chain, b);
      WalkLays(rules, whole, Walked(w.pos + |b|, Write(w.writer, b), w.store), name, end, chain, r);
    case Moved(_, _, _, _, _) => MovedLays(rules, whole, w, name, end, chain, l);
    case Around(_, _, _, _) => AroundLays(rules, whole, w, name, end, chain, l);
  }

  lemma {:induction false} MovedLays(rules: Rules, whole: bytes, w: Walked, name: string, end: Option<nat>,
                                     chain: seq<nat>, l: Loose)
    requires l.Moved? && EndsWith(whole, w.pos, l, end) && FitsLoosely(rules, name, l) && WellFormed(l)
    ensures var r := WalkMessage(rules, whole, w, Some(name), end, chain);
      r.Ok? && r.value.writer == LooseLay(l, chain, w.pos, w.writer)
    decreases l, 1
  {
    hide Payload, Field, Stays, WalkMessage, Spells;
    match l
    case Moved(t, id, v, b, r) =>
      var next := HoleMoves(rules, whole, w, name, chain, t, id, v, b, LooseText(r));
      StepOn(rules, whole, w, Some(name), end, chain, next);
      WalkLays(rules, whole, next, name, end, chain, r);
  }

  lemma {:induction false} AroundLays(rules: Rules, whole: bytes, w: Walked, name: string, end: Option<nat>,
                                      chain: seq<nat>, l: Loose)
    requires l.Around? && EndsWith(whole, w.pos, l, end) && FitsLoosely(rules, name, l) && WellFormed(l)
    ensures var r := WalkMessage(rules, whole, w, Some(name), end, chain);
      r.Ok? && r.value.writer == LooseLay(l, chain, w.pos, w.writer)
    decreases l, 1
  {
    hide Payload, Field, Stays, WalkMessage, Spells;
    match l
    case Around(t, v, i, r) =>
      var next := SubLays(rules, whole, w, name, chain, t, v, i, r);
      StepOn(rules, whole, w, Some(name), end, chain, next);
      WalkLays(rules, whole, next, name, end, chain, r);
  }

  /** A sub-message is walked as its own type. */
  lemma {:induction false} SubLays(rules: Rules, whole: bytes, w: Walked, name: string, chain: seq<nat>, t: byte, v: bytes,
                                   i: Loose, r: Loose)
    returns (next: Walked)
    requires At(whole, w.pos, [t] + v + LooseText(i) + LooseText(r))
    requires FitsLoosely(rules, name, Around(t, v, i, r)) && WellFormed(Around(t, v, i, r))
    ensures Field(rules, whole, w, Some(name), chain) == Ok(next)
    ensures next.pos == w.pos + 1 + |v| + |LooseText(i)| && At(whole, next.pos, LooseText(r))
    ensures next.writer == LooseLay(i, chain + [w.pos + 1], w.pos + 1 + |v|, Write(w.writer, [t] + v))
    decreases Around(t, v, i, r), 0
  {
    hide Payload, Field, WalkMessage, LooseLay, Stays, Spells;
    AtSplit(whole, w.pos, [t] + v + LooseText(i), LooseText(r));
    RecordHead(rules, whole, w, t, v, LooseText(i), name, chain);
    var sized := Walked(w.pos + 1 + |v|, Write(w.writer, [t] + v), w.store);
    var inner := FieldKind(rules, Some(name), t / 8).value.name;
    var end := Some(sized.pos + |LooseText(i)|);
    WalkLays(rules, whole, sized, inner, end, chain + [w.pos + 1], i);
    SubWalks(rules, whole, sized, name, t, inner, |LooseText(i)|, chain + [w.pos + 1]);
    next := WalkMessage(rules, whole, sized, Some(inner), end, chain + [w.pos + 1]).value;
  }

  lemma SubWalks(rules: Rules, whole: bytes, w: Walked, name: string, t: byte, inner: string, length: nat, chain: seq<nat>)
    requires w.pos <= |whole| && FieldKind(rules, Some(name), t / 8) == Some(MessageKind(inner))
    ensures Payload(rules, whole, w, Some(name), t / 8, length, chain) ==
            WalkMessage(rules, whole, w, Some(inner), Some(w.pos + length), chain)
  {
  }

  lemma HoleMoves(rules: Rules, whole: bytes, w: Walked, name: string, chain: seq<nat>, t: byte, id: Id, v: bytes, b: bytes,
                  more: bytes)
    returns (next: Walked)
    requires At(whole, w.pos, [t] + v + b + more) && LengthTag(t) && Spells(v, |b|) && |v| <= 10
    requires FieldKind(rules, Some(name), t / 8) == Some(OtherKind)
    requires rules.shouldSplit(name, t / 8, |b|) && rules.hash(b) == id
    ensures Field(rules, whole, w, Some(name), chain) == Ok(next)
    ensures next.pos == w.pos + 1 + |v| + |b| && At(whole, next.pos, more)
    ensures next.writer == Cut(Write(w.writer, [t] + v), id, chain + [w.pos + 1])
  {
    hide Field, Publish, Spells;
    AtSplit(whole, w.pos, [t] + v + b, more);
    RecordHead(rules, whole, w, t, v, b, name, chain);
    var sized := Walked(w.pos + 1 + |v|, Write(w.writer, [t] + v), w.store);
    next := MoveIfThere(rules, whole, sized, |b|, chain + [w.pos + 1]).value;
  }

  /**
    The walk takes any such document, and its entries are the document's, with the varints
    as they stood.
    */
  lemma SplitsAsItStands(rules: Rules, name: string, l: Loose, store: Store)
    requires FitsLoosely(rules, name, l) && WellFormed(l)
    ensures var r := WalkMessage(rules, LooseText(l), Walked(0, EMPTY, store), Some(name), None, []);
      r.Ok? && Close(r.value.writer) == Close(LooseLay(l, [], 0, EMPTY))
  {
    hide WalkMessage;
    WalkLays(rules, LooseText(l), Walked(0, EMPTY, store), name, None, [], l);
  }

  /** The block of `PaddedIsOff`, by a policy that moves field 2 out: eight bytes become seven. */
  lemma PaddedIsTaken(rules: Rules, store: Store)
    requires rules.schema == map["M" := map[1 := MessageKind("M"), 2 := OtherKind]] && rules.shouldSplit("M", 2, 1)
    ensures var l := Padded(rules.hash([0x41]));
      var r := WalkMessage(rules, LooseText(l), Walked(0, EMPTY, store), Some("M"), None, []);
      |LooseText(l)| == 8 && r.Ok?
      && Close(r.value.writer) ==
         [Part([0x0a, 6, 0x0a, 0x83, 0, 0x12, 1]), Ref(rules.hash([0x41]), [1, 3, 6]), Part([])]
  {
    hide WalkMessage;
    var id := rules.hash([0x41]);
    var l := Padded(id);
    PaddedText(id);
    assert 0x12 / 8 == 2 && 0x0a / 8 == 1;
    assert FitsLoosely(rules, "M", l.inner.inner);
    assert FitsLoosely(rules, "M", l.inner);
    SplitsAsItStands(rules, "M", l, store);
    PaddedLays(id);
  }

  /**
    The splitter refines the builder: on the expansion of a message whose pointers are the
    fields the policy moves out, it writes the entries the builder wrote.
    */
  lemma SplitIsBuilt(rules: Rules, name: string, d: Doc, store: Store)
    requires Fits(rules, name, d)
    ensures var r := WalkMessage(rules, Text(d), Walked(0, EMPTY, store), Some(name), None, []);
      r.Ok? && Close(r.value.writer) == DirectoryOf(d)
  {
    hide WalkMessage, Lay, LooseLay, FitsLoosely, Fits;
    FitsLoosened(rules, name, d);
    LoosenedIsTight(d);
    LoosenedLays(d, [], 0, EMPTY);
    SplitsAsItStands(rules, name, Loosened(d), store);
  }

  // --------------------------------------------------- exchanging a stored form

  predicate Mentions(f: Flow, id: Id) {
    match f
    case Nil => false
    case Bytes(_, r) => Mentions(r, id)
    case Block(x, _, body, r) => x == id || Mentions(body, id) || Mentions(r, id)
  }

  /** A flow that mentions a block is no shorter than the block. */
  lemma {:induction false} MentionsIsLong(s: Store, es: Directory, f: Flow, id: Id)
    requires Realizes(s, es, f) && Whole(s, id) && Mentions(f, id)
    ensures |Content(f)| >= |Expansion(s, id)|
    decreases f
  {
    match f
    case Nil =>
    case Bytes(_, r) => MentionsIsLong(s, es[1..], r, id);
    case Block(x, _, body, r) =>
      if x == id { ExpansionIs(s, id, body); }
      else if Mentions(body, id) { MentionsIsLong(s, EntriesOf(s[x]), body, id); }
      else { MentionsIsLong(s, es[1..], r, id); }
  }

  lemma {:induction false} RealizesWithout(s: Store, s': Store, es: Directory, f: Flow, id: Id)
    requires Realizes(s, es, f) && !Mentions(f, id)
    requires forall x | x in s && x != id :: x in s' && s'[x] == s[x]
    ensures Realizes(s', es, f)
    decreases f
  {
    match f
    case Nil =>
    case Bytes(_, r) => RealizesWithout(s, s', es[1..], r, id);
    case Block(x, _, body, r) =>
      RealizesWithout(s, s', EntriesOf(s[x]), body, id);
      RealizesWithout(s, s', es[1..], r, id);
  }

  /** With another form of the same content, everything still unfolds to the same bytes. */
  lemma {:induction false} Reformed(s: Store, id: Id, stored: Stored, g: Flow, es: Directory, f: Flow) returns (f': Flow)
    requires Whole(s, id) && Realizes(s[id := stored], EntriesOf(stored), g) && Content(g) == Expansion(s, id)
    requires Realizes(s, es, f)
    ensures Realizes(s[id := stored], es, f') && Content(f') == Content(f)
    decreases f
  {
    match f
    case Nil => f' := Nil;
    case Bytes(b, r) =>
      var r' := Reformed(s, id, stored, g, es[1..], r);
      f' := Bytes(b, r');
    case Block(x, c, body, r) =>
      var r' := Reformed(s, id, stored, g, es[1..], r);
      if x == id {
        ExpansionIs(s, id, body);
        f' := Block(id, c, g, r');
      } else {
        var body' := Reformed(s, id, stored, g, EntriesOf(s[x]), body);
        f' := Block(x, c, body', r');
      }
  }

  /** Nothing is lost, and no expansion changes. */
  ghost predicate SameMeaning(s: Store, s': Store) {
    forall x <- s :: x in s' && (Whole(s, x) ==> Whole(s', x) && Expansion(s', x) == Expansion(s, x))
  }

  /**
    Storing a block as a directory of shorter blocks changes no expansion: not its own, and
    not that of any block it occurs in.
    */
  lemma ReformKeepsMeaning(env: Environment, s: Store, id: Id, es: Directory)
    requires Sound(env, s) && id in s && Covered(s, es)
    requires Fill(es, Contents(s)) == Expansion(s, id)
    requires forall e <- es :: e.Ref? ==> |Expansion(s, e.id)| < |Expansion(s, id)|
    ensures var s' := s[id := Dir(es)];
      SameMeaning(s, s') && Sound(env, s')
  {
    var s' := s[id := Dir(es)];
    forall e | e in es && e.Ref? ensures Whole(s', e.id) && Expansion(s', e.id) == Expansion(s, e.id) {
      var f := Unfolding(s, e.id);
      if Mentions(f, id) { MentionsIsLong(s, EntriesOf(s[e.id]), f, id); }
      RealizesWithout(s, s', EntriesOf(s[e.id]), f, id);
      ExpansionIs(s', e.id, f);
    }
    var g := CoveredRealizes(s', es);
    FlowFills(s', es, g);
    FillAgrees(es, Contents(s), Contents(s'));
    forall x | x in s && Whole(s, x) ensures Whole(s', x) && Expansion(s', x) == Expansion(s, x) {
      if x == id {
        ExpansionIs(s', id, g);
      } else {
        var f' := Reformed(s, id, Dir(es), g, EntriesOf(s[x]), Unfolding(s, x));
        ExpansionIs(s', x, f');
      }
    }
  }

  lemma {:induction false} FillAgrees(es: Directory, a: Id -> bytes, b: Id -> bytes)
    requires forall e <- es :: e.Ref? ==> a(e.id) == b(e.id)
    ensures Fill(es, a) == Fill(es, b)
  {
    if es != [] {
      assert es == [es[0]] + es[1..];
      FillAgrees(es[1..], a, b);
    }
  }

  /** A block that was split means what it meant, and so does every other. */
  lemma SplitKeepsMeaning(env: Environment, rules: Rules, s: Store, id: Id, name: Option<string>, w: Walked)
    requires Sound(env, s) && env.hash == rules.hash && Injective(rules.hash) && id in s
    requires WalkMessage(rules, Expansion(s, id), Walked(0, EMPTY, s), name, None, []) == Ok(w)
    ensures Extends(s, w.store) && Sound(env, w.store)
    ensures var s' := w.store[id := Dir(Close(w.writer))];
      SameMeaning(s, s') && Sound(env, s')
  {
    hide WalkMessage, Injective, Leads;
    var whole, es := Expansion(s, id), Close(w.writer);
    SplitPreserves(env, rules, whole, s, name);
    ExpansionGrows(s, w.store, id);
    forall e | e in es && e.Ref? ensures |Expansion(w.store, e.id)| < |whole| {
      var j :| 0 <= j < |es| && es[j] == e;
      SplitLeads(env, rules, whole, s, name, w, j);
      LeadsBeyond(whole, e.chain, 0, |whole|, |Fill(w.writer.done[..j], Contents(w.store))|, |Expansion(w.store, e.id)|);
    }
    ReformKeepsMeaning(env, w.store, id, es);
    forall x | x in s && Whole(s, x)
      ensures Whole(w.store, x) && Expansion(w.store, x) == Expansion(s, x)
    {
      ExpansionGrows(s, w.store, x);
    }
  }

  lemma {:induction false} LeadsBeyond(whole: bytes, chain: seq<nat>, lo: nat, hi: nat, at: nat, size: nat)
    requires Leads(whole, chain, lo, hi, at, size)
    ensures lo < at && at + size <= hi
    decreases |chain|
  {
    if |chain| > 1 {
      var r := Decode(whole[chain[0]..]).value;
      LeadsBeyond(whole, chain[1..], chain[0] + r.width, chain[0] + r.width + r.value, at, size);
    }
  }
}
