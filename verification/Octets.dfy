/** Machine integers, big-endian coding and the octets that travel on the wire.

Cryptography is symbolic.  A ciphertext of a box is a run of `Cipher` octets, one per
plaintext octet plus sixteen for the tag, and a digest is a run of 32 `Hash` octets, so
lengths, slices and concatenations of wire data are the ones of the program.  An octet that
is part of a ciphertext or a digest reads as zero when code looks at its numeric value. */
module Octets {

  type byte = b: int | 0 <= b < 0x100
  type u16 = v: int | 0 <= v < 0x1_0000
  type u32 = v: int | 0 <= v < 0x1_0000_0000
  type u64 = v: int | 0 <= v < 0x1_0000_0000_0000_0000

  const TWO32: int := 0x1_0000_0000

  datatype Option<+T> = None | Some(value: T)

  /** The scrypt stretch of a psk; injective in the psk and the cost exponent. */
  datatype MasterKey = MasterKey(psk: seq<byte>, logN: byte)

  /** Domain-separation labels of the key schedule. */
  datatype Label =
    | DiscoverKey | HandshakeSalt | HandshakeC2S | HandshakeS2C
    | SessionSalt | SessionC2S | SessionS2C
    | ProofC2S | ProofS2C

  /** sha256(label || master || server nonce || client nonce), injective. */
  datatype Digest = Digest(purpose: Label, master: MasterKey, serverNonce: u64, clientNonce: u64)

  /** One application of the AEAD: what was sealed, and under which key, nonce and header. */
  datatype Box = Box(key: Digest, nonce: seq<Octet>, aad: seq<byte>, plain: seq<Octet>)

  datatype Octet =
    | Clear(byteValue: byte)
    | Cipher(box: Box, index: nat)
    | Hash(digest: Digest, index: nat)

  function Value(o: Octet): byte {
    if o.Clear? then o.byteValue else 0
  }

  function Values(s: seq<Octet>): (r: seq<byte>)
    ensures |r| == |s|
  {
    seq(|s|, i requires 0 <= i < |s| => Value(s[i]))
  }

  function Clears(s: seq<byte>): (r: seq<Octet>)
    ensures |r| == |s|
  {
    seq(|s|, i requires 0 <= i < |s| => Clear(s[i]))
  }

  predicate AllClear(s: seq<Octet>) {
    forall i :: 0 <= i < |s| ==> s[i].Clear?
  }

  lemma ValuesOfClears(s: seq<byte>)
    ensures Values(Clears(s)) == s
    ensures AllClear(Clears(s))
  {
  }

  lemma ClearsOfValues(s: seq<Octet>)
    requires AllClear(s)
    ensures Clears(Values(s)) == s
  {
  }

  function Be16(v: u16): (r: seq<byte>)
    ensures |r| == 2
  {
    [v / 0x100, v % 0x100]
  }

  function Be32(v: u32): (r: seq<byte>)
    ensures |r| == 4
  {
    Be16(v / 0x1_0000) + Be16(v % 0x1_0000)
  }

  function Be64(v: u64): (r: seq<byte>)
    ensures |r| == 8
  {
    Be32(v / 0x1_0000_0000) + Be32(v % 0x1_0000_0000)
  }

  function From16(s: seq<byte>): u16
    requires |s| == 2
  {
    (s[0] as int) * 0x100 + s[1]
  }

  function From32(s: seq<byte>): u32
    requires |s| == 4
  {
    (From16(s[..2]) as int) * 0x1_0000 + From16(s[2..])
  }

  function From64(s: seq<byte>): u64
    requires |s| == 8
  {
    (From32(s[..4]) as int) * 0x1_0000_0000 + From32(s[4..])
  }

  lemma Be32RoundTrip(v: u32)
    ensures From32(Be32(v)) == v
  {
    var hi, lo := Be16(v / 0x1_0000), Be16(v % 0x1_0000);
    assert (hi + lo)[..2] == hi && (hi + lo)[2..] == lo;
  }

  lemma Be64RoundTrip(v: u64)
    ensures From64(Be64(v)) == v
  {
    var hi, lo := Be32(v / TWO32), Be32(v % TWO32);
    assert (hi + lo)[..4] == hi && (hi + lo)[4..] == lo;
    Be32RoundTrip(v / TWO32);
    Be32RoundTrip(v % TWO32);
  }

  lemma From16RoundTrip(s: seq<byte>)
    requires |s| == 2
    ensures Be16(From16(s)) == s
  {
  }

  /** The most significant byte comes first. */
  lemma BigEndian(v: u32)
    ensures Be32(v) == [v / 0x100_0000, v / 0x1_0000 % 0x100, v / 0x100 % 0x100, v % 0x100]
  {
    LowByte(v / 0x1_0000, v % 0x1_0000 / 0x100, v % 0x100);
    LowByte(v / 0x100_0000, v / 0x1_0000 % 0x100, 0);
  }

  /** Cutting a number in the middle and each half again is cutting it byte by byte. */
  lemma LowByte(hi: int, c: int, d: int)
    requires 0 <= c < 0x100 && 0 <= d < 0x100
    ensures var v := hi * 0x1_0000 + c * 0x100 + d; v / 0x100 % 0x100 == c && v % 0x100 == d
  {
    var v := hi * 0x1_0000 + c * 0x100 + d;
    assert v == (hi * 0x100 + c) * 0x100 + d;
    assert v / 0x100 == hi * 0x100 + c;
  }

  lemma BigEndian64(v: u64)
    ensures Be64(v) == Be32(v / 0x1_0000_0000) + Be32(v % 0x1_0000_0000)
  {
  }

  lemma FromBigEndian(s: seq<byte>)
    requires |s| == 4
    ensures From32(s) == (((s[0] as int) * 0x100 + s[1]) * 0x100 + s[2]) * 0x100 + s[3]
  {
  }

  /** Facts about slices and concatenation, stated once. */
  lemma NextPart<T>(s: seq<T>, a: nat, n: nat)
    requires a + n <= |s|
    ensures s[..a + n] == s[..a] + s[a..][..n]
  {
  }

  lemma Halves<T>(s: seq<T>, k: nat)
    requires k <= |s|
    ensures s == s[..k] + s[k..]
  {
  }

  lemma Thirds<T>(s: seq<T>, i: nat, j: nat)
    requires i <= j <= |s|
    ensures s == s[..i] + s[i..j] + s[j..]
  {
  }

  lemma Associative<T>(a: seq<T>, b: seq<T>, c: seq<T>)
    ensures a + (b + c) == a + b + c
  {
  }

  lemma From32RoundTrip(s: seq<byte>)
    requires |s| == 4
    ensures Be32(From32(s)) == s
  {
    hide From16, Be16;
    From16RoundTrip(s[..2]);
    From16RoundTrip(s[2..]);
    Halves(s, 2);
    SplitWord(From16(s[..2]), From16(s[2..]));
  }

  lemma From64RoundTrip(s: seq<byte>)
    requires |s| == 8
    ensures Be64(From64(s)) == s
  {
    hide From32, Be32;
    From32RoundTrip(s[..4]);
    From32RoundTrip(s[4..]);
    Halves(s, 4);
    SplitDouble(From32(s[..4]), From32(s[4..]));
  }

  lemma SplitWord(hi: u16, lo: u16)
    ensures var v := (hi as int) * 0x1_0000 + lo; v / 0x1_0000 == hi && v % 0x1_0000 == lo
  {
  }

  lemma SplitDouble(hi: u32, lo: u32)
    ensures var v := (hi as int) * TWO32 + lo; v / TWO32 == hi && v % TWO32 == lo
  {
  }

  predicate Continuation(b: byte) {
    0x80 <= b <= 0xBF
  }

  /** Well-formed UTF-8 byte sequences (table 3-7 of the Unicode Standard). */
  predicate Utf8(s: seq<byte>)
    decreases |s|
  {
    if s == [] then true
    else if s[0] < 0x80 then Utf8(s[1..])
    else if 0xC2 <= s[0] <= 0xDF then
      |s| >= 2 && Continuation(s[1]) && Utf8(s[2..])
    else if 0xE0 <= s[0] <= 0xEF then
      && |s| >= 3 && Continuation(s[1]) && Continuation(s[2])
      && (s[0] == 0xE0 ==> 0xA0 <= s[1])
      && (s[0] == 0xED ==> s[1] <= 0x9F)
      && Utf8(s[3..])
    else
      && 0xF0 <= s[0] <= 0xF4
      && |s| >= 4 && Continuation(s[1]) && Continuation(s[2]) && Continuation(s[3])
      && (s[0] == 0xF0 ==> 0x90 <= s[1])
      && (s[0] == 0xF4 ==> s[1] <= 0x8F)
      && Utf8(s[4..])
  }

  /** The UTF-8 form of a Unicode scalar value. */
  predicate Scalar(c: int) {
    0 <= c <= 0x10FFFF && !(0xD800 <= c <= 0xDFFF)
  }

  function Utf8Of(c: int): seq<byte>
    requires Scalar(c)
  {
    if c < 0x80 then [c]
    else if c < 0x800 then [0xC0 + c / 0x40, 0x80 + c % 0x40]
    else if c < 0x1_0000 then [0xE0 + c / 0x1000, 0x80 + c / 0x40 % 0x40, 0x80 + c % 0x40]
    else [0xF0 + c / 0x4_0000, 0x80 + c / 0x1000 % 0x40, 0x80 + c / 0x40 % 0x40, 0x80 + c % 0x40]
  }

  predicate Scalars(cs: seq<int>) {
    forall i :: 0 <= i < |cs| ==> Scalar(cs[i])
  }

  function Encoded(cs: seq<int>): seq<byte>
    requires Scalars(cs)
  {
    if cs == [] then [] else Utf8Of(cs[0]) + Encoded(cs[1..])
  }

  lemma OneScalar(c: int, rest: seq<byte>)
    requires Scalar(c)
    ensures Utf8(Utf8Of(c) + rest) == Utf8(rest)
  {
    var s, first := Utf8Of(c) + rest, Utf8Of(c);
    assert s[|first|..] == rest;
    assert s[0] == first[0];
    if |first| > 1 {
      assert s[1] == first[1];
    }
    if |first| > 2 {
      assert s[2] == first[2];
    }
    if |first| > 3 {
      assert s[3] == first[3];
    }
  }

  lemma {:induction false} EncodedIsUtf8(cs: seq<int>)
    requires Scalars(cs)
    ensures Utf8(Encoded(cs))
  {
    if cs != [] {
      EncodedIsUtf8(cs[1..]);
      OneScalar(cs[0], Encoded(cs[1..]));
    }
  }

  /** The parts of a scalar cut into its six-bit digits. */
  lemma Sextets(a: int, b: int, c: int, d: int)
    requires 0 <= b < 0x40 && 0 <= c < 0x40 && 0 <= d < 0x40
    ensures var v := a * 0x4_0000 + b * 0x1000 + c * 0x40 + d;
            v % 0x40 == d && v / 0x40 % 0x40 == c && v / 0x1000 % 0x40 == b && v / 0x4_0000 == a
            && v / 0x40 == a * 0x1000 + b * 0x40 + c && v / 0x1000 == a * 0x40 + b
  {
    var v := a * 0x4_0000 + b * 0x1000 + c * 0x40 + d;
    assert v / 0x40 == a * 0x1000 + b * 0x40 + c;
    assert v / 0x1000 == a * 0x40 + b;
  }

  lemma FirstOfTwo(s: seq<byte>) returns (c: int)
    requires Utf8(s) && s != [] && 0x80 <= s[0] <= 0xDF
    ensures Scalar(c) && |s| >= 2 && Utf8Of(c) == [s[0], s[1]] && Utf8(s[2..])
  {
    var x: int, y: int := s[0] - 0xC0, s[1] - 0x80;
    c := x * 0x40 + y;
    Sextets(0, 0, x, y);
  }

  lemma FirstOfThree(s: seq<byte>) returns (c: int)
    requires Utf8(s) && s != [] && 0xE0 <= s[0] <= 0xEF
    ensures Scalar(c) && |s| >= 3 && Utf8Of(c) == [s[0], s[1], s[2]] && Utf8(s[3..])
  {
    var x: int, y: int, z: int := s[0] - 0xE0, s[1] - 0x80, s[2] - 0x80;
    c := x * 0x1000 + y * 0x40 + z;
    Sextets(0, x, y, z);
  }

  lemma FirstOfFour(s: seq<byte>) returns (c: int)
    requires Utf8(s) && s != [] && 0xF0 <= s[0]
    ensures Scalar(c) && |s| >= 4 && Utf8Of(c) == [s[0], s[1], s[2], s[3]] && Utf8(s[4..])
  {
    var x: int, y: int, z: int, u: int := s[0] - 0xF0, s[1] - 0x80, s[2] - 0x80, s[3] - 0x80;
    c := x * 0x4_0000 + y * 0x1000 + z * 0x40 + u;
    Sextets(x, y, z, u);
  }

  /** The scalar a well-formed byte sequence starts with. */
  lemma FirstScalar(s: seq<byte>) returns (c: int)
    requires Utf8(s) && s != []
    ensures Scalar(c) && |Utf8Of(c)| <= |s| && Utf8Of(c) == s[..|Utf8Of(c)|] && Utf8(s[|Utf8Of(c)|..])
  {
    if s[0] < 0x80 {
      c := s[0];
    } else {
      hide Utf8, Utf8Of;
      if s[0] <= 0xDF {
        c := FirstOfTwo(s);
      } else if s[0] <= 0xEF {
        c := FirstOfThree(s);
      } else {
        c := FirstOfFour(s);
      }
    }
  }

  lemma {:induction false} Utf8Decodes(s: seq<byte>) returns (cs: seq<int>)
    requires Utf8(s)
    ensures Scalars(cs) && Encoded(cs) == s
    decreases |s|
  {
    hide Utf8, Utf8Of;
    if s == [] {
      cs := [];
    } else {
      var c := FirstScalar(s);
      var n := |Utf8Of(c)|;
      assert n > 0 by { SomeBytes(c); }
      var rest := Utf8Decodes(s[n..]);
      cs := [c] + rest;
      assert cs[1..] == rest;
      Halves(s, n);
    }
  }

  lemma SomeBytes(c: int)
    requires Scalar(c)
    ensures |Utf8Of(c)| > 0
  {
  }

  /** Bytes are accepted as a string if and only if they are the UTF-8 form of some scalar values:
      no overlong form, no surrogate, nothing beyond the last code point, nothing cut short. */
  lemma Utf8Exactly(s: seq<byte>)
    ensures Utf8(s) <==> exists cs :: Scalars(cs) && Encoded(cs) == s
  {
    if Utf8(s) {
      var cs := Utf8Decodes(s);
    }
    forall cs | Scalars(cs) && Encoded(cs) == s
      ensures Utf8(s)
    {
      EncodedIsUtf8(cs);
    }
  }

  /** A program string: bytes that are valid UTF-8. */
  type Text = s: seq<byte> | Utf8(s)
}
