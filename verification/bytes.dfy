/** Bytes, byte strings, and the result types shared by every other module. */
module Bytes {

  type byte = x: int | 0 <= x < 256

  type bytes = seq<byte>

  datatype Option<+T> = None | Some(value: T)

  datatype Result<+T, +E> = Ok(value: T) | Err(error: E)

  /** The parts of a stream, one after the other. */
  function Join(parts: seq<bytes>): bytes {
    if parts == [] then [] else parts[0] + Join(parts[1..])
  }

  /** `piece` stands in `whole` at offset `pos`. */
  predicate At(whole: bytes, pos: nat, piece: bytes) {
    pos + |piece| <= |whole| && whole[pos..pos + |piece|] == piece
  }

  lemma AtSplit(whole: bytes, pos: nat, a: bytes, b: bytes)
    requires At(whole, pos, a + b)
    ensures At(whole, pos, a) && At(whole, pos + |a|, b)
  {
    var both := whole[pos..pos + |a + b|];
    assert whole[pos..pos + |a|] == both[..|a|];
    assert whole[pos + |a|..pos + |a| + |b|] == both[|a|..];
  }
}
