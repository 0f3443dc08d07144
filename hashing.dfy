/** The byte-level pieces behind a String's hash key: the UTF-8 encoding of a
    Go string (section 3 of RFC 3629) and the 64-bit FNV-1a hash of
    `hash/fnv`'s `New64a`. */
module Hashing {

  newtype Byte = x: int | 0 <= x < 0x100

  /** The UTF-8 encoding of one code point. */
  function EncodeRune(c: char): (bytes: seq<Byte>)
    ensures 1 <= |bytes| <= 4
    ensures |bytes| == 1 <==> (c as int) < 0x80
    ensures |bytes| == 2 <==> 0x80 <= (c as int) < 0x800
    ensures |bytes| == 3 <==> 0x800 <= (c as int) < 0x1_0000
    ensures |bytes| == 1 ==> bytes[0] < 0x80
    ensures |bytes| == 2 ==> 0xC0 <= bytes[0] < 0xE0
    ensures |bytes| == 3 ==> 0xE0 <= bytes[0] < 0xF0
    ensures |bytes| == 4 ==> 0xF0 <= bytes[0] < 0xF8
    ensures forall i :: 1 <= i < |bytes| ==> 0x80 <= bytes[i] < 0xC0
  {
    var n := c as int;
    if n < 0x80 then
      [n as Byte]
    else if n < 0x800 then
      [(0xC0 + n / 0x40) as Byte, (0x80 + n % 0x40) as Byte]
    else if n < 0x1_0000 then
      [(0xE0 + n / 0x1000) as Byte, (0x80 + (n / 0x40) % 0x40) as Byte, (0x80 + n % 0x40) as Byte]
    else
      [(0xF0 + n / 0x4_0000) as Byte, (0x80 + (n / 0x1000) % 0x40) as Byte,
       (0x80 + (n / 0x40) % 0x40) as Byte, (0x80 + n % 0x40) as Byte]
  }

  /** The code point a well-formed sequence of 1 to 4 bytes encodes: the
      payload bits of the lead byte followed by six bits per continuation
      byte. */
  function DecodeRune(bytes: seq<Byte>): int
    requires 1 <= |bytes| <= 4
  {
    var lead := bytes[0] as int;
    if |bytes| == 1 then lead
    else if |bytes| == 2 then (lead - 0xC0) * 0x40 + Payload(bytes[1])
    else if |bytes| == 3 then (lead - 0xE0) * 0x1000 + Payload(bytes[1]) * 0x40 + Payload(bytes[2])
    else (lead - 0xF0) * 0x4_0000 + Payload(bytes[1]) * 0x1000 + Payload(bytes[2]) * 0x40 + Payload(bytes[3])
  }

  function Payload(b: Byte): int
  {
    b as int - 0x80
  }

  /** Decoding the encoding of a code point gives the code point back, so
      distinct characters encode differently. */
  lemma RuneRoundTrip(c: char)
    ensures DecodeRune(EncodeRune(c)) == c as int
  {
    var n := c as int;
    if n < 0x80 {
    } else if n < 0x800 {
      TwoByteRoundTrip(c);
    } else if n < 0x1_0000 {
      ThreeByteRoundTrip(c);
    } else {
      FourByteRoundTrip(c);
    }
  }

  /** The round trip for each length of encoding. */
  lemma TwoByteRoundTrip(c: char)
    requires 0x80 <= c as int < 0x800
    ensures DecodeRune(EncodeRune(c)) == c as int
  {
    var n := c as int;
    assert EncodeRune(c) == [(0xC0 + n / 0x40) as Byte, (0x80 + n % 0x40) as Byte];
  }

  lemma ThreeByteRoundTrip(c: char)
    requires 0x800 <= c as int < 0x1_0000
    ensures DecodeRune(EncodeRune(c)) == c as int
  {
    var n := c as int;
    var q1 := n / 0x40;
    assert EncodeRune(c) == [(0xE0 + n / 0x1000) as Byte, (0x80 + q1 % 0x40) as Byte, (0x80 + n % 0x40) as Byte];
    assert n / 0x1000 == q1 / 0x40;
  }

  lemma FourByteRoundTrip(c: char)
    requires 0x1_0000 <= c as int
    ensures DecodeRune(EncodeRune(c)) == c as int
  {
    var n := c as int;
    var q1 := n / 0x40;
    var q2 := n / 0x1000;
    assert EncodeRune(c) == [(0xF0 + n / 0x4_0000) as Byte, (0x80 + q2 % 0x40) as Byte,
                             (0x80 + q1 % 0x40) as Byte, (0x80 + n % 0x40) as Byte];
    assert q2 == q1 / 0x40;
    assert n / 0x4_0000 == q2 / 0x40;
  }

  lemma EncodeRuneInjective(c: char, d: char)
    ensures EncodeRune(c) == EncodeRune(d) <==> c == d
  {
    RuneRoundTrip(c);
    RuneRoundTrip(d);
  }

  /** `[]byte(s)`: the UTF-8 encoding of a whole string. */
  function EncodeString(s: string): seq<Byte>
  {
    if s == [] then [] else EncodeRune(s[0]) + EncodeString(s[1..])
  }

  const FNV_OFFSET_BASIS: bv64 := 14695981039346656037
  const FNV_PRIME: bv64 := 1099511628211

  /** One FNV-1a round: xor the byte in, then multiply modulo 2^64. */
  function FnvStep(h: bv64, b: Byte): bv64
  {
    (h ^ (b as bv64)) * FNV_PRIME
  }

  /** The state after writing `bytes` into a hash whose state is `h`. */
  function FnvFold(h: bv64, bytes: seq<Byte>): bv64
    decreases |bytes|
  {
    if bytes == [] then h else FnvFold(FnvStep(h, bytes[0]), bytes[1..])
  }

  /** `fnv.New64a()`, `Write(bytes)`, `Sum64()`. */
  function Fnv1a64(bytes: seq<Byte>): bv64
  {
    FnvFold(FNV_OFFSET_BASIS, bytes)
  }

  /** Writing in two pieces hashes like writing the whole at once: the hash
      is a left fold over the bytes. */
  lemma {:induction false} FnvFoldAppend(h: bv64, xs: seq<Byte>, ys: seq<Byte>)
    ensures FnvFold(h, xs + ys) == FnvFold(FnvFold(h, xs), ys)
    decreases |xs|
  {
    if xs == [] {
      assert xs + ys == ys;
    } else {
      var h' := FnvStep(h, xs[0]);
      assert (xs + ys)[0] == xs[0];
      assert (xs + ys)[1..] == xs[1..] + ys;
      calc {
        FnvFold(h, xs + ys);
        FnvFold(h', xs[1..] + ys);
        { FnvFoldAppend(h', xs[1..], ys); }
        FnvFold(FnvFold(h', xs[1..]), ys);
        FnvFold(FnvFold(h, xs), ys);
      }
    }
  }

  /** The published FNV-1a test vectors for "" and "a". */
  lemma FnvTestVectors()
    ensures Fnv1a64([]) == 0xcbf29ce484222325
    ensures Fnv1a64(EncodeString("a")) == 0xaf63dc4c8601ec8c
  {
    assert EncodeRune('a') == [0x61];
    assert EncodeString("a") == [0x61];
    var x: bv64 := 0xcbf29ce484222325 ^ 0x61;
    assert x == 0xcbf29ce484222344;
    assert x * FNV_PRIME == 0xaf63dc4c8601ec8c;
    assert FnvStep(FNV_OFFSET_BASIS, 0x61) == 0xaf63dc4c8601ec8c;
  }
}
