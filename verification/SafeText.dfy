/** The text check `safe_text` of `src/adapters/audio_backend.cpp`: UTF-8 as sections 3 and 4 of
    RFC 3629 define it, without control characters other than line feed and tab.

    The encoding of scalar values is stated on its own; the check, a scan over bytes, is then shown to
    accept exactly what encodes some safe text. Masks of bytes are written as quotients and
    remainders by powers of two: `(b & 0xE0) == 0xC0` is `b / 32 == 6`. */
module SafeText {
  import opened Wrappers

  type Byte = b: int | 0 <= b < 256

  // ---------------------------------------------------------------------------------------------
  // The encoding
  // ---------------------------------------------------------------------------------------------

  predicate Scalar(c: nat) { c <= 0x10FFFF && !(0xD800 <= c <= 0xDFFF) }

  /** A scalar value that may occur in a text: no C0 control but line feed and tab, and no DEL. */
  predicate Safe(c: nat) { Scalar(c) && (c >= 0x20 || c == 0x0A || c == 0x09) && c != 0x7F }

  predicate AllSafe(cs: seq<nat>) { forall i | 0 <= i < |cs| :: Safe(cs[i]) }

  function Tail(c: nat): Byte { 0x80 + c % 64 }

  /** Section 3 of RFC 3629. */
  function Encode(c: nat): (bytes: seq<Byte>)
    requires Scalar(c)
    ensures 1 <= |bytes| <= 4
  {
    if c < 0x80 then [c]
    else if c < 0x800 then [0xC0 + c / 64, Tail(c)]
    else if c < 0x10000 then [0xE0 + c / 4096, Tail(c / 64), Tail(c)]
    else [0xF0 + c / 262144, Tail(c / 4096), Tail(c / 64), Tail(c)]
  }

  function EncodeAll(cs: seq<nat>): seq<Byte>
    requires AllSafe(cs)
  {
    if cs == [] then [] else Encode(cs[0]) + EncodeAll(cs[1..])
  }

  ghost predicate IsSafeText(value: seq<Byte>) { exists cs :: AllSafe(cs) && EncodeAll(cs) == value }

  // ---------------------------------------------------------------------------------------------
  // The scan
  // ---------------------------------------------------------------------------------------------

  /** What the first byte of a character says: how long it is, and the bits it contributes. */
  function Lead(first: Byte): Option<(nat, nat)> {
    if (first < 0x20 && first != 0x0A && first != 0x09) || first == 0x7F then None
    else if first <= 0x7F then Some((1, first))
    else if first / 32 == 6 then (if first % 32 < 2 then None else Some((2, first % 32)))
    else if first / 16 == 14 then Some((3, first % 16))
    else if first / 8 == 30 then Some((4, first % 8))
    else None
  }

  /** The bits of the bytes that follow, appended to those already there. */
  function Continued(bits: nat, bytes: seq<Byte>): Option<nat>
    decreases |bytes|
  {
    if bytes == [] then Some(bits)
    else if bytes[0] / 64 != 2 then None
    else Continued(bits * 64 + bytes[0] % 64, bytes[1..])
  }

  predicate InRange(length: nat, c: nat) {
    !((length == 3 && c < 0x800) || (length == 4 && c < 0x10000) || (0xD800 <= c <= 0xDFFF) || c > 0x10FFFF)
  }

  /** The first character and its length, if it is a safe one. */
  function First(value: seq<Byte>): (r: Option<(nat, nat)>)
    requires value != []
    ensures r.Some? ==> 1 <= r.value.1 <= |value|
  {
    match Lead(value[0])
    case None => None
    case Some((length, bits)) =>
      if length > |value| then None else
        match Continued(bits, value[1..length])
        case None => None
        case Some(c) => if InRange(length, c) then Some((c, length)) else None
  }

  /** All characters, if they are all safe. */
  function Decode(value: seq<Byte>): Option<seq<nat>>
    decreases |value|
  {
    if value == [] then Some([]) else
      match First(value)
      case None => None
      case Some((c, length)) =>
        match Decode(value[length..])
        case None => None
        case Some(rest) => Some([c] + rest)
  }

  lemma Continued1(bits: nat, b: Byte)
    ensures Continued(bits, [b]) == if b / 64 == 2 then Some(bits * 64 + b % 64) else None
  {
  }

  lemma Continued2(bits: nat, b: Byte, c: Byte)
    ensures Continued(bits, [b, c]) == if b / 64 == 2 && c / 64 == 2 then Some((bits * 64 + b % 64) * 64 + c % 64) else None
  {
    assert [b, c][1..] == [c];
    Continued1(bits * 64 + b % 64, c);
  }

  lemma Continued3(bits: nat, b: Byte, c: Byte, d: Byte)
    ensures Continued(bits, [b, c, d])
         == if b / 64 == 2 && c / 64 == 2 && d / 64 == 2 then Some(((bits * 64 + b % 64) * 64 + c % 64) * 64 + d % 64) else None
  {
    assert [b, c, d][1..] == [c, d];
    Continued2(bits * 64 + b % 64, c, d);
  }

  // What the bytes of an encoding are, by number: quotients and remainders put together again.

  lemma Bits2(a: Byte, b: Byte, c: nat)
    requires a / 32 == 6 && a % 32 >= 2 && b / 64 == 2 && c == a % 32 * 64 + b % 64
    ensures 0x80 <= c < 0x800 && a == 0xC0 + c / 64 && b == Tail(c)
  {
  }

  lemma Bits3(a: Byte, b: Byte, c: Byte, n: nat)
    requires a / 16 == 14 && b / 64 == 2 && c / 64 == 2 && n == (a % 16 * 64 + b % 64) * 64 + c % 64
    ensures n < 0x10000 && a == 0xE0 + n / 4096 && b == Tail(n / 64) && c == Tail(n)
  {
    assert n / 64 == a % 16 * 64 + b % 64;
    assert n / 4096 == a % 16;
  }

  lemma Bits4(a: Byte, b: Byte, c: Byte, d: Byte, n: nat)
    requires a / 8 == 30 && b / 64 == 2 && c / 64 == 2 && d / 64 == 2
    requires n == ((a % 8 * 64 + b % 64) * 64 + c % 64) * 64 + d % 64
    ensures a == 0xF0 + n / 262144 && b == Tail(n / 4096) && c == Tail(n / 64) && d == Tail(n)
  {
    assert n / 64 == (a % 8 * 64 + b % 64) * 64 + c % 64;
    assert n / 4096 == a % 8 * 64 + b % 64;
    assert n / 262144 == a % 8;
  }

  lemma Found(value: seq<Byte>)
    requires value != [] && First(value).Some?
    ensures var (c, length) := First(value).value;
            && Lead(value[0]).Some? && length == Lead(value[0]).value.0 && InRange(length, c)
            && Continued(Lead(value[0]).value.1, value[1..length]) == Some(c)
  {
  }

  /** A character found is safe, and is encoded in the bytes it was found in. */
  lemma FirstSound(value: seq<Byte>)
    requires value != [] && First(value).Some?
    ensures var (c, length) := First(value).value; Safe(c) && Encode(c) == value[..length]
  {
    var (c, length) := First(value).value;
    Found(value);
    Sound(value[0], value[1..length], c);
    assert [value[0]] + value[1..length] == value[..length];
  }

  lemma Sound(first: Byte, rest: seq<Byte>, c: nat)
    requires Lead(first).Some? && 1 + |rest| == Lead(first).value.0 && InRange(1 + |rest|, c)
    requires Continued(Lead(first).value.1, rest) == Some(c)
    ensures Safe(c) && Encode(c) == [first] + rest
  {
    if |rest| == 1 {
      assert rest == [rest[0]];
      Continued1(first % 32, rest[0]);
      Bits2(first, rest[0], c);
    } else if |rest| == 2 {
      assert rest == [rest[0], rest[1]];
      Continued2(first % 16, rest[0], rest[1]);
      Bits3(first, rest[0], rest[1], c);
    } else if |rest| == 3 {
      assert rest == [rest[0], rest[1], rest[2]];
      Continued3(first % 8, rest[0], rest[1], rest[2]);
      Bits4(first, rest[0], rest[1], rest[2], c);
    }
  }

  lemma Bytes2(c: nat)
    requires 0x80 <= c < 0x800
    ensures Lead(0xC0 + c / 64) == Some((2, c / 64)) && Continued(c / 64, [Tail(c)]) == Some(c)
  {
    Continued1(c / 64, Tail(c));
    assert 2 <= c / 64 < 32;
  }

  lemma TailBits(c: nat)
    ensures Tail(c) / 64 == 2 && Tail(c) % 64 == c % 64
  {
  }

  lemma Digit(c: nat, unit: nat)
    requires unit == 1 || unit == 64 || unit == 4096
    ensures c / unit == c / (unit * 64) * 64 + c / unit % 64
  {
  }

  lemma Lead3(c: nat)
    requires 0x800 <= c < 0x10000
    ensures Lead(0xE0 + c / 4096) == Some((3, c / 4096))
  {
    assert c / 4096 < 16;
  }

  lemma Lead4(c: nat)
    requires 0x10000 <= c <= 0x10FFFF
    ensures Lead(0xF0 + c / 262144) == Some((4, c / 262144))
  {
    assert c / 262144 < 8;
  }

  lemma Bytes3(c: nat)
    ensures Continued(c / 4096, [Tail(c / 64), Tail(c)]) == Some(c)
  {
    Continued2(c / 4096, Tail(c / 64), Tail(c));
    TailBits(c / 64); TailBits(c);
    Digit(c, 64); Digit(c, 1);
  }

  lemma Bytes4(c: nat)
    ensures Continued(c / 262144, [Tail(c / 4096), Tail(c / 64), Tail(c)]) == Some(c)
  {
    Continued3(c / 262144, Tail(c / 4096), Tail(c / 64), Tail(c));
    TailBits(c / 4096); TailBits(c / 64); TailBits(c);
    Digit(c, 4096); Digit(c, 64); Digit(c, 1);
  }

  lemma Encoded(c: nat)
    requires Safe(c)
    ensures var bytes := Encode(c);
            && Lead(bytes[0]).Some? && Lead(bytes[0]).value.0 == |bytes| && InRange(|bytes|, c)
            && Continued(Lead(bytes[0]).value.1, bytes[1..]) == Some(c)
  {
    var bytes := Encode(c);
    if c < 0x80 {
      assert bytes[1..] == [];
    } else if c < 0x800 {
      Bytes2(c);
      assert bytes[1..] == [Tail(c)];
    } else if c < 0x10000 {
      Lead3(c);
      Bytes3(c);
      assert bytes[1..] == [Tail(c / 64), Tail(c)];
    } else {
      Lead4(c);
      Bytes4(c);
      assert bytes[1..] == [Tail(c / 4096), Tail(c / 64), Tail(c)];
    }
  }

  /** A safe character is found in its encoding, whatever follows. */
  lemma FirstComplete(c: nat, rest: seq<Byte>)
    requires Safe(c)
    ensures First(Encode(c) + rest) == Some((c, |Encode(c)|))
  {
    var bytes := Encode(c);
    Encoded(c);
    assert (bytes + rest)[1..|bytes|] == bytes[1..];
  }

  /** Decoding what was encoded gives it back. */
  lemma {:induction false} DecodeEncode(cs: seq<nat>)
    requires AllSafe(cs)
    ensures Decode(EncodeAll(cs)) == Some(cs)
  {
    if cs != [] {
      var rest := EncodeAll(cs[1..]);
      FirstComplete(cs[0], rest);
      DecodeEncode(cs[1..]);
      assert (Encode(cs[0]) + rest)[|Encode(cs[0])|..] == rest;
      assert [cs[0]] + cs[1..] == cs;
    }
  }

  /** Encoding what was decoded gives it back. */
  lemma {:induction false} EncodeDecode(value: seq<Byte>)
    requires Decode(value).Some?
    ensures AllSafe(Decode(value).value) && EncodeAll(Decode(value).value) == value
    decreases |value|
  {
    if value != [] {
      var (c, length) := First(value).value;
      FirstSound(value);
      EncodeDecode(value[length..]);
      EncodeFirst(value, length, c, Decode(value[length..]).value);
    }
  }

  lemma EncodeFirst(value: seq<Byte>, length: nat, c: nat, cs: seq<nat>)
    requires length <= |value| && Safe(c) && AllSafe(cs) && Encode(c) == value[..length] && EncodeAll(cs) == value[length..]
    ensures AllSafe([c] + cs) && EncodeAll([c] + cs) == value
  {
    assert ([c] + cs)[1..] == cs;
    assert value[..length] + value[length..] == value;
  }

  lemma DecodeExact(value: seq<Byte>)
    ensures Decode(value).Some? <==> IsSafeText(value)
  {
    if Decode(value).Some? {
      EncodeDecode(value);
    } else if IsSafeText(value) {
      var cs :| AllSafe(cs) && EncodeAll(cs) == value;
      DecodeEncode(cs);
      assert false;
    }
  }

  /** The body of the loop: the length of the character at `index`, or nothing if it is not safe. */
  method Scan(value: seq<Byte>, index: nat) returns (size: Option<nat>)
    requires index < |value|
    ensures size == match First(value[index..]) case None => None case Some((_, n)) => Some(n)
  {
    ghost var here := value[index..];
    assert here[0] == value[index];
    var first := value[index];
    if (first < 0x20 && first != 0x0A && first != 0x09) || first == 0x7F {
      return None;
    }
    var length: nat, codepoint: nat;
    if first <= 0x7F {
      length, codepoint := 1, first;
    } else if first / 32 == 6 {
      length, codepoint := 2, first % 32;
      if codepoint < 2 {
        return None;
      }
    } else if first / 16 == 14 {
      length, codepoint := 3, first % 16;
    } else if first / 8 == 30 {
      length, codepoint := 4, first % 8;
    } else {
      return None;
    }
    if length > |value| - index {
      return None;
    }
    assert Lead(first) == Some((length, codepoint));
    ghost var bits := codepoint;
    for offset := 1 to length
      invariant Continued(bits, here[1..length]) == Continued(codepoint, here[offset..length])
    {
      var next := value[index + offset];
      assert here[offset] == next && here[offset..length][1..] == here[offset + 1..length];
      if next / 64 != 2 {
        return None;
      }
      codepoint := codepoint * 64 + next % 64;
    }
    return if InRange(length, codepoint) then Some(length) else None;
  }

  /** `safe_text`: the value is not empty, not too long, and the encoding of a safe text. */
  method SafeText(value: seq<Byte>, maximum: nat) returns (ok: bool)
    ensures ok <==> value != [] && |value| <= maximum && IsSafeText(value)
  {
    DecodeExact(value);
    if value == [] || |value| > maximum {
      return false;
    }
    var index := 0;
    assert value[0..] == value;
    while index < |value|
      invariant index <= |value|
      invariant Decode(value).Some? <==> Decode(value[index..]).Some?
    {
      var size := Scan(value, index);
      if size.None? {
        return false;
      }
      assert value[index..][size.value..] == value[index + size.value..];
      index := index + size.value;
    }
    return true;
  }
}
