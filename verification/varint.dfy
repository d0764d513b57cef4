/**
  Base 128 varints (Protocol Buffers Encoding, "Base 128 Varints"): the one
  mathematical encoding, and the loops of the library that write and read it.
  */
module Varint {
  import opened Bytes

  /** Low groups of seven bits first; every byte but the last has its top bit set. */
  function Encode(n: nat): (r: bytes)
    ensures |r| > 0
  {
    if n < 128 then [n] else [n % 128 + 128] + Encode(n / 128)
  }

  /** One byte more written. */
  lemma EncodeStep(before: bytes, n: nat)
    ensures n < 128 <==> n / 128 == 0
    ensures if n < 128 then n % 128 == n && Encode(n) == [n]
            else n / 128 < n && before + Encode(n) == (before + [n % 128 + 128]) + Encode(n / 128)
  {
  }

  function Width(n: nat): (w: nat)
    ensures w > 0
  {
    |Encode(n)|
  }

  /** A varint read off the front of a byte string: its value and its width. */
  datatype Read = Read(value: nat, width: nat)

  function Decode(s: bytes): (r: Option<Read>)
    ensures r.Some? ==> 0 < r.value.width <= |s|
  {
    if s == [] then None
    else if s[0] < 128 then Some(Read(s[0], 1))
    else
      match Decode(s[1..])
      case None => None
      case Some(r) => Some(Read(s[0] - 128 + 128 * r.value, r.width + 1))
  }

  /** Reading undoes writing, whatever follows. */
  lemma {:induction false} DecodeEncode(n: nat, rest: bytes)
    ensures Decode(Encode(n) + rest) == Some(Read(n, Width(n)))
  {
    if n < 128 {
      assert (Encode(n) + rest)[0] == n;
    } else {
      var s := Encode(n) + rest;
      assert s[0] == n % 128 + 128;
      assert s[1..] == Encode(n / 128) + rest;
      DecodeEncode(n / 128, rest);
    }
  }

  /** A longer encoding never belongs to a smaller number. */
  lemma {:induction false} WidthMonotone(m: nat, n: nat)
    requires m <= n
    ensures Width(m) <= Width(n)
  {
    if n >= 128 && m >= 128 {
      WidthMonotone(m / 128, n / 128);
    }
  }

  /** Ten bytes carry seventy bits. */
  lemma TenBytes(n: nat)
    requires n < 0x40_0000_0000_0000_0000
    ensures Width(n) <= 10
  {
    WidthUpTo(n, 10);
    assert Power128(10) == 0x40_0000_0000_0000_0000 by {
      assert Power128(2) == 0x4000;
      assert Power128(4) == 0x1000_0000;
      assert Power128(6) == 0x400_0000_0000;
      assert Power128(8) == 0x100_0000_0000_0000;
    }
  }

  ghost function Power128(k: nat): nat {
    if k == 0 then 1 else 128 * Power128(k - 1)
  }

  lemma {:induction false} WidthUpTo(n: nat, k: nat)
    requires 0 < k && n < Power128(k)
    ensures Width(n) <= k
  {
    if n >= 128 {
      assert Power128(k) == 128 * Power128(k - 1);
      assert k > 1 by { assert Power128(0) == 1; }
      WidthUpTo(n / 128, k - 1);
    }
  }

  // ---------------------------------------------------------------- writers

  /** `encode_bytes`: the loop that writes a varint a byte at a time. */
  method EncodeBytes(n: nat) returns (buf: bytes)
    ensures buf == Encode(n)
  {
    hide Encode;
    buf := [];
    var m := n;
    while true
      invariant buf + Encode(m) == Encode(n)
      decreases m
    {
      EncodeStep(buf, m);
      var toWrite := m % 128;
      var next := m / 128;
      if next != 0 {
        buf := buf + [toWrite + 128];
        m := next;
      } else {
        buf := buf + [toWrite];
        break;
      }
    }
  }

  // ---------------------------------------------------------------- readers

  /** What a reader that stops silently at the end of the file makes of the bytes. */
  function DecodeLoose(s: bytes): nat {
    if s == [] then 0
    else if s[0] < 128 then s[0]
    else s[0] - 128 + 128 * DecodeLoose(s[1..])
  }

  lemma {:induction false} LooseAgrees(s: bytes)
    requires Decode(s).Some?
    ensures DecodeLoose(s) == Decode(s).value.value
  {
    if s[0] >= 128 {
      LooseAgrees(s[1..]);
    }
  }

  lemma Shifted(scale: nat, low: nat, high: nat)
    ensures scale * (low + 128 * high) == low * scale + (scale * 128) * high
  {
  }

  /** One more byte of a varint, when the bytes before it weigh `scale`. */
  lemma WeighByte(b: byte, scale: nat, high: nat)
    ensures b < 128 ==> scale * b == (b % 128) * scale
    ensures b >= 128 ==> scale * (b - 128 + 128 * high) == (b % 128) * scale + (scale * 128) * high
  {
    var low := if b < 128 then b else b - 128;
    assert low == b % 128;
    assert scale * low == low * scale;
    if b >= 128 { Shifted(scale, low, high); }
  }

  lemma NextByte(s: bytes, at: nat, scale: nat)
    requires at < |s|
    ensures var b, rest := s[at], Decode(s[at + 1..]);
      match Decode(s[at..])
      case None => b >= 128 && rest.None?
      case Some(r) =>
        if b < 128 then scale * r.value == (b % 128) * scale
        else rest.Some? && scale * r.value == (b % 128) * scale + (scale * 128) * rest.value.value
  {
    assert s[at..][1..] == s[at + 1..];
    var rest := Decode(s[at + 1..]);
    WeighByte(s[at], scale, if rest.Some? then rest.value.value else 0);
  }

  lemma NextByteLoose(s: bytes, at: nat, scale: nat)
    requires at < |s|
    ensures scale * DecodeLoose(s[at..]) ==
            (s[at] % 128) * scale + if s[at] < 128 then 0 else (scale * 128) * DecodeLoose(s[at + 1..])
  {
    assert s[at..][1..] == s[at + 1..];
    WeighByte(s[at], scale, DecodeLoose(s[at + 1..]));
  }

  /** `get_position_length`: running off the buffer is an IndexError, here None. */
  method GetPositionLength(varintPos: nat, buffer: bytes) returns (r: Option<nat>)
    requires varintPos <= |buffer|
    ensures r == match Decode(buffer[varintPos..]) case None => None case Some(d) => Some(d.value)
  {
    hide Decode, DecodeLoose;
    var value: nat, scale: nat, index := 0, 1, varintPos;
    ghost var whole := Decode(buffer[varintPos..]);
    while true
      invariant varintPos <= index <= |buffer|
      invariant match Decode(buffer[index..])
                case None => whole.None?
                case Some(d) => whole.Some? && whole.value.value == value + scale * d.value
      decreases |buffer| - index
    {
      if index == |buffer| {
        EmptyTail(buffer);
        return None;
      }
      NextByte(buffer, index, scale);
      var b := buffer[index];
      value := value + (b % 128) * scale;
      if b < 128 {
        return Some(value);
      }
      scale := scale * 128;
      index := index + 1;
    }
  }

  lemma EmptyTail(s: bytes)
    ensures Decode(s[|s|..]) == None && DecodeLoose(s[|s|..]) == 0
  {
  }

  /** The reading loop of `get_varint_at_position`: a file that ends early ends the value. */
  method ReadVarintInFile(file: bytes, offset: nat) returns (result: nat)
    requires offset <= |file|
    ensures result == DecodeLoose(file[offset..])
  {
    hide Decode, DecodeLoose;
    var scale: nat, index := 1, offset;
    result := 0;
    ghost var whole := DecodeLoose(file[offset..]);
    while index < |file|
      invariant offset <= index <= |file|
      invariant whole == result + scale * DecodeLoose(file[index..])
    {
      NextByteLoose(file, index, scale);
      var b := file[index];
      result := result + (b % 128) * scale;
      if b < 128 {
        return;
      }
      scale := scale * 128;
      index := index + 1;
    }
    EmptyTail(file);
  }

  /** Every reader returns what either writer wrote. */
  lemma ReadersAgree(n: nat, rest: bytes)
    ensures Decode(Encode(n) + rest) == Some(Read(n, Width(n)))
    ensures DecodeLoose(Encode(n) + rest) == n
  {
    DecodeEncode(n, rest);
    LooseAgrees(Encode(n) + rest);
  }
}
