// Document keys of the Azure vector store (infra/providers/azure/vector_store.py:227-238):
// unpadded base64url (section 5 of RFC 4648) over UTF-8 (section 3 of RFC 3629).

module KeyCodec {
  import opened Prelude

  type Byte = b: int | 0 <= b < 256

  // ===== UTF-8 =======================================================================

  function EncodeChar(c: char): (r: seq<Byte>)
    ensures r != []
  {
    var x := c as int;
    if x < 0x80 then [x]
    else if x < 0x800 then [0xC0 + x / 64, 0x80 + x % 64]
    else if x < 0x10000 then [0xE0 + x / 4096, 0x80 + x / 64 % 64, 0x80 + x % 64]
    else [0xF0 + x / 262144, 0x80 + x / 4096 % 64, 0x80 + x / 64 % 64, 0x80 + x % 64]
  }

  /** `s.encode()` */
  function Utf8(s: string): seq<Byte> {
    if s == "" then [] else EncodeChar(s[0]) + Utf8(s[1..])
  }

  predicate IsTail(b: Byte) {
    0x80 <= b < 0xC0
  }

  /** The payload of a byte above its marker bits. */
  function Bits(b: Byte, marker: int): int {
    b - marker
  }

  /** The first character and its width, when the bytes begin with a well-formed sequence:
      no overlong form, no surrogate, nothing above U+10FFFF. */
  function DecodeChar(b: seq<Byte>): (r: Option<(char, nat)>)
    requires b != []
    ensures r.Some? ==> 1 <= r.value.1 <= |b|
  {
    if b[0] < 0x80 then Some((b[0] as char, 1))
    else if 0xC2 <= b[0] < 0xE0 && |b| >= 2 && IsTail(b[1]) then
      Some(((Bits(b[0], 0xC0) * 64 + Bits(b[1], 0x80)) as char, 2))
    else if 0xE0 <= b[0] < 0xF0 && |b| >= 3 && IsTail(b[1]) && IsTail(b[2]) then
      var x := Bits(b[0], 0xE0) * 4096 + Bits(b[1], 0x80) * 64 + Bits(b[2], 0x80);
      if x < 0x800 || 0xD800 <= x < 0xE000 then None else Some((x as char, 3))
    else if 0xF0 <= b[0] < 0xF5 && |b| >= 4 && IsTail(b[1]) && IsTail(b[2]) && IsTail(b[3]) then
      var x := Bits(b[0], 0xF0) * 262144 + Bits(b[1], 0x80) * 4096 + Bits(b[2], 0x80) * 64 + Bits(b[3], 0x80);
      if x < 0x10000 || x > 0x10FFFF then None else Some((x as char, 4))
    else None
  }

  /** `b.decode()`; `None` is a `UnicodeDecodeError`. */
  function FromUtf8(b: seq<Byte>): Option<string>
    decreases |b|
  {
    if b == [] then Some("")
    else
      match DecodeChar(b)
      case None => None
      case Some((c, width)) =>
        match FromUtf8(b[width..])
        case None => None
        case Some(rest) => Some([c] + rest)
  }

  lemma DecodeCharOf(c: char, rest: seq<Byte>)
    ensures DecodeChar(EncodeChar(c) + rest) == Some((c, |EncodeChar(c)|))
  {
    var x, b := c as int, EncodeChar(c) + rest;
    SixBitGroups(x);
    if x < 0x800 {
    } else if x < 0x10000 {
      assert Bits(b[0], 0xE0) * 4096 + Bits(b[1], 0x80) * 64 + Bits(b[2], 0x80) == x;
    } else {
      assert Bits(b[0], 0xF0) * 262144 + Bits(b[1], 0x80) * 4096 + Bits(b[2], 0x80) * 64 + Bits(b[3], 0x80) == x;
    }
  }

  lemma SixBitGroups(x: nat)
    ensures x == x / 64 * 64 + x % 64
    ensures x / 64 == x / 4096 * 64 + x / 64 % 64
    ensures x / 4096 == x / 262144 * 64 + x / 4096 % 64
  {
  }

  /** Decoding undoes encoding, for every string of Unicode characters. */
  lemma {:induction false} Utf8RoundTrip(s: string)
    ensures FromUtf8(Utf8(s)) == Some(s)
  {
    if s != "" {
      var head, rest := EncodeChar(s[0]), Utf8(s[1..]);
      DecodeCharOf(s[0], rest);
      assert (head + rest)[|head|..] == rest;
      Utf8RoundTrip(s[1..]);
      assert [s[0]] + s[1..] == s;
    }
  }

  lemma TwoByteChar(a: Byte, b: Byte, x: int)
    requires 0xC2 <= a < 0xE0 && IsTail(b) && x == (a - 0xC0) * 64 + (b - 0x80)
    ensures 0x80 <= x < 0x800 && 0xC0 + x / 64 == a && 0x80 + x % 64 == b
  {
  }

  lemma LastSixBits(y: nat, z: nat)
    requires z < 64
    ensures (y * 64 + z) / 64 == y && (y * 64 + z) % 64 == z
  {
  }

  lemma DivideTwice(x: nat)
    ensures x / 4096 == x / 64 / 64 && x / 262144 == x / 64 / 64 / 64
  {
  }

  lemma ThreeGroups(p: nat, q: nat, r: nat, x: nat)
    requires q < 64 && r < 64 && x == p * 4096 + q * 64 + r
    ensures x / 4096 == p && x / 64 % 64 == q && x % 64 == r
  {
    LastSixBits(p * 64 + q, r);
    LastSixBits(p, q);
    DivideTwice(x);
    assert x == (p * 64 + q) * 64 + r;
  }

  lemma FourGroups(o: nat, p: nat, q: nat, r: nat, x: nat)
    requires p < 64 && q < 64 && r < 64 && x == o * 262144 + p * 4096 + q * 64 + r
    ensures x / 262144 == o && x / 4096 % 64 == p && x / 64 % 64 == q && x % 64 == r
  {
    LastSixBits((o * 64 + p) * 64 + q, r);
    ThreeGroups(o, p, q, (o * 64 + p) * 64 + q);
    DivideTwice(x);
    assert x == ((o * 64 + p) * 64 + q) * 64 + r;
    assert x / 64 == o * 4096 + p * 64 + q;
    DivideTwice(x / 64);
  }

  /** A character is only read where its own encoding stands. */
  lemma EncodeCharOf(b: seq<Byte>)
    requires b != [] && DecodeChar(b).Some?
    ensures EncodeChar(DecodeChar(b).value.0) == b[..DecodeChar(b).value.1]
  {
    var x := DecodeChar(b).value.0 as int;
    if b[0] >= 0xF0 {
      FourGroups(Bits(b[0], 0xF0), Bits(b[1], 0x80), Bits(b[2], 0x80), Bits(b[3], 0x80), x);
    } else if b[0] >= 0xE0 {
      ThreeGroups(Bits(b[0], 0xE0), Bits(b[1], 0x80), Bits(b[2], 0x80), x);
    } else if b[0] >= 0x80 {
      TwoByteChar(b[0], b[1], x);
    }
  }

  /** The decoder accepts exactly the encodings: no overlong form, no surrogate, nothing cut short. */
  lemma {:induction false} Utf8Exactly(b: seq<Byte>, s: string)
    ensures FromUtf8(b) == Some(s) <==> Utf8(s) == b
  {
    if Utf8(s) == b { Utf8RoundTrip(s); }
    if FromUtf8(b) == Some(s) { Utf8Back(b); }
  }

  lemma ReadFirst(b: seq<Byte>) returns (c: char, width: nat)
    requires b != [] && FromUtf8(b).Some?
    ensures 1 <= width <= |b| && EncodeChar(c) == b[..width]
    ensures FromUtf8(b[width..]).Some? && FromUtf8(b).value == [c] + FromUtf8(b[width..]).value
  {
    EncodeCharOf(b);
    c, width := DecodeChar(b).value.0, DecodeChar(b).value.1;
  }

  lemma Utf8Cons(c: char, rest: string, b: seq<Byte>, width: nat)
    requires width <= |b| && EncodeChar(c) == b[..width] && Utf8(rest) == b[width..]
    ensures Utf8([c] + rest) == b
  {
    assert ([c] + rest)[1..] == rest;
  }

  lemma {:induction false} Utf8Back(b: seq<Byte>)
    requires FromUtf8(b).Some?
    ensures Utf8(FromUtf8(b).value) == b
    decreases |b|
  {
    if b != [] {
      var c, width := ReadFirst(b);
      Utf8Back(b[width..]);
      Utf8Cons(c, FromUtf8(b[width..]).value, b, width);
    }
  }

  lemma {:induction false} Utf8Concat(a: string, b: string)
    ensures Utf8(a + b) == Utf8(a) + Utf8(b)
  {
    if a == "" {
      assert a + b == b;
    } else {
      assert (a + b)[1..] == a[1..] + b;
      Utf8Concat(a[1..], b);
    }
  }

  // ===== Base64 ========================================================================

  /** The URL-safe alphabet (RFC 4648, table 2). */
  function Digit(i: nat): (c: char)
    requires i < 64
  {
    if i < 26 then 'A' + i as char
    else if i < 52 then 'a' + (i - 26) as char
    else if i < 62 then '0' + (i - 52) as char
    else if i == 62 then '-'
    else '_'
  }

  predicate IsUrlSafe(c: char) {
    'A' <= c <= 'Z' || 'a' <= c <= 'z' || '0' <= c <= '9' || c == '-' || c == '_'
  }

  /** The value of a byte after `urlsafe_b64decode` has turned `-` and `_` into `+` and `/`. */
  function DigitValue(b: Byte): (v: Option<nat>)
    ensures v.Some? ==> v.value < 64
  {
    if 65 <= b <= 90 then Some(b - 65)
    else if 97 <= b <= 122 then Some(b - 97 + 26)
    else if 48 <= b <= 57 then Some(b - 48 + 52)
    else if b == 43 || b == 45 then Some(62)
    else if b == 47 || b == 95 then Some(63)
    else None
  }

  function Quad(x: Byte, y: Byte, z: Byte): (r: string)
    ensures |r| == 4
  {
    [Digit(x / 4), Digit(x % 4 * 16 + y / 16), Digit(y % 16 * 4 + z / 64), Digit(z % 64)]
  }

  /** `urlsafe_b64encode` */
  function Base64(b: seq<Byte>): string {
    if b == [] then ""
    else if |b| == 1 then Quad(b[0], 0, 0)[..2] + "=="
    else if |b| == 2 then Quad(b[0], b[1], 0)[..3] + "="
    else Quad(b[0], b[1], b[2]) + Base64(b[3..])
  }

  /** `s.rstrip("=")` */
  function StripPad(s: string): string {
    if s != "" && s[|s| - 1] == '=' then StripPad(s[..|s| - 1]) else s
  }

  /** `_encode_key` */
  function EncodeKey(key: string): string {
    StripPad(Base64(Utf8(key)))
  }

  /** `binascii.a2b_base64` in its lenient mode: foreign bytes are skipped, a complete padding ends
      the data, and data that stops inside a quad is an error (`None`). */
  function FromBase64(s: seq<Byte>, quadPos: nat, left: nat, pads: nat, out: seq<Byte>): Option<seq<Byte>>
    requires quadPos < 4 && left < 64
    requires (quadPos == 2 ==> left < 16) && (quadPos == 3 ==> left < 4)
  {
    if s == [] then (if quadPos == 0 then Some(out) else None)
    else if s[0] == 61 then
      if quadPos >= 2 && quadPos + pads + 1 >= 4 then Some(out)
      else FromBase64(s[1..], quadPos, left, if quadPos >= 2 then pads + 1 else pads, out)
    else
      match DigitValue(s[0])
      case None => FromBase64(s[1..], quadPos, left, pads, out)
      case Some(v) =>
        if quadPos == 0 then FromBase64(s[1..], 1, v, 0, out)
        else if quadPos == 1 then FromBase64(s[1..], 2, v % 16, 0, out + [left * 4 + v / 16])
        else if quadPos == 2 then FromBase64(s[1..], 3, v % 4, 0, out + [left * 16 + v / 4])
        else FromBase64(s[1..], 0, 0, 0, out + [left * 64 + v])
  }

  function Pad(n: nat): string {
    if n == 0 then "" else "=" + Pad(n - 1)
  }

  /** `_decode_key` */
  function DecodeKey(encoded: string): string {
    var padded := encoded + Pad((4 - |encoded| % 4) % 4);
    match FromBase64(Utf8(padded), 0, 0, 0, [])
    case None => encoded
    case Some(bytes) =>
      match FromUtf8(bytes)
      case None => encoded
      case Some(key) => key
  }

  // ----- Encoding without the padding -----------------------------------------------------

  function Unpadded(b: seq<Byte>): string {
    if b == [] then ""
    else if |b| == 1 then Quad(b[0], 0, 0)[..2]
    else if |b| == 2 then Quad(b[0], b[1], 0)[..3]
    else Quad(b[0], b[1], b[2]) + Unpadded(b[3..])
  }

  function PadFor(n: nat): string {
    if n % 3 == 1 then "==" else if n % 3 == 2 then "=" else ""
  }

  lemma DigitSafe(i: nat)
    requires i < 64
    ensures IsUrlSafe(Digit(i)) && Utf8([Digit(i)]) == [Digit(i) as int]
    ensures DigitValue(Digit(i) as int) == Some(i) && Digit(i) != '='
  {
    assert Utf8("") == [];
  }

  lemma QuadSafe(x: Byte, y: Byte, z: Byte)
    ensures forall i :: 0 <= i < 4 ==> IsUrlSafe(Quad(x, y, z)[i])
  {
    DigitSafe(x / 4);
    DigitSafe(x % 4 * 16 + y / 16);
    DigitSafe(y % 16 * 4 + z / 64);
    DigitSafe(z % 64);
  }

  lemma {:induction false} UnpaddedSafe(b: seq<Byte>)
    ensures forall i :: 0 <= i < |Unpadded(b)| ==> IsUrlSafe(Unpadded(b)[i])
  {
    if |b| == 1 {
      QuadSafe(b[0], 0, 0);
    } else if |b| == 2 {
      QuadSafe(b[0], b[1], 0);
    } else if |b| >= 3 {
      QuadSafe(b[0], b[1], b[2]);
      UnpaddedSafe(b[3..]);
    }
  }

  lemma {:induction false} UnpaddedLength(b: seq<Byte>)
    ensures |Unpadded(b)| == (4 * |b| + 2) / 3
  {
    if |b| >= 3 { UnpaddedLength(b[3..]); }
  }

  lemma PadForStep(n: nat)
    ensures PadFor(n + 3) == PadFor(n)
  {
  }

  lemma ShortIsPadded(b: seq<Byte>)
    requires |b| < 3
    ensures Base64(b) == Unpadded(b) + PadFor(|b|)
  {
    if |b| == 1 {
      assert PadFor(|b|) == "==";
    } else if |b| == 2 {
      assert PadFor(|b|) == "=";
    } else {
      assert Base64(b) == Unpadded(b) == PadFor(|b|) == "";
    }
  }

  lemma {:induction false} Base64IsPadded(b: seq<Byte>)
    ensures Base64(b) == Unpadded(b) + PadFor(|b|)
  {
    if |b| < 3 {
      ShortIsPadded(b);
    } else {
      var rest := b[3..];
      Base64IsPadded(rest);
      PadForStep(|rest|);
      ConcatAssoc(Quad(b[0], b[1], b[2]), Unpadded(rest), PadFor(|rest|));
    }
  }

  lemma StripPadOf(s: string)
    requires s == "" || s[|s| - 1] != '='
    ensures StripPad(s + "==") == StripPad(s + "=") == StripPad(s) == s
  {
    StripOnePad(s);
    StripOnePad(s + "=");
    assert s + "==" == s + "=" + "=";
  }

  lemma StripOnePad(s: string)
    ensures StripPad(s + "=") == StripPad(s)
  {
    assert (s + "=")[..|s|] == s;
  }

  lemma EncodeKeyIs(key: string)
    ensures EncodeKey(key) == Unpadded(Utf8(key))
  {
    var b := Utf8(key);
    Base64IsPadded(b);
    UnpaddedSafe(b);
    StripPadOf(Unpadded(b));
    assert Unpadded(b) + "" == Unpadded(b);
  }

  // ----- The round trip ------------------------------------------------------------------

  lemma ReadDigit(i: nat, rest: seq<Byte>, quadPos: nat, left: nat, pads: nat, out: seq<Byte>)
    requires i < 64 && quadPos < 4 && left < 64
    requires (quadPos == 2 ==> left < 16) && (quadPos == 3 ==> left < 4)
    ensures FromBase64([Digit(i) as int] + rest, quadPos, left, pads, out)
         == if quadPos == 0 then FromBase64(rest, 1, i, 0, out)
            else if quadPos == 1 then FromBase64(rest, 2, i % 16, 0, out + [left * 4 + i / 16])
            else if quadPos == 2 then FromBase64(rest, 3, i % 4, 0, out + [left * 16 + i / 4])
            else FromBase64(rest, 0, 0, 0, out + [left * 64 + i])
  {
    DigitSafe(i);
    assert ([Digit(i) as int] + rest)[1..] == rest;
  }

  lemma Utf8Quad(x: Byte, y: Byte, z: Byte)
    ensures
      var q := Quad(x, y, z);
      && Utf8(q) == [q[0] as int, q[1] as int, q[2] as int, q[3] as int]
      && Utf8(q[..3]) == [q[0] as int, q[1] as int, q[2] as int]
      && Utf8(q[..2]) == [q[0] as int, q[1] as int]
  {
    DigitSafe(x / 4);
    DigitSafe(x % 4 * 16 + y / 16);
    DigitSafe(y % 16 * 4 + z / 64);
    DigitSafe(z % 64);
    var q := Quad(x, y, z);
    Utf8Ascii(q);
    Utf8Ascii(q[..3]);
    Utf8Ascii(q[..2]);
  }

  /** ASCII text is encoded character by character. */
  lemma {:induction false} Utf8Ascii(s: string)
    requires forall i :: 0 <= i < |s| ==> s[i] as int < 0x80
    ensures |Utf8(s)| == |s|
    ensures forall i :: 0 <= i < |s| ==> Utf8(s)[i] == s[i] as int
  {
    if s != "" { Utf8Ascii(s[1..]); }
  }

  lemma OneByOne(a: Byte, b: Byte, c: Byte, rest: seq<Byte>)
    ensures [a, b, c] + rest == [a] + ([b] + ([c] + rest))
    ensures [a, b] + rest == [a] + ([b] + rest)
  {
  }

  /** Two digits give the first byte and leave four bits over. */
  lemma ReadPair(i: nat, j: nat, rest: seq<Byte>, out: seq<Byte>)
    requires i < 64 && j < 64
    ensures FromBase64([Digit(i) as int, Digit(j) as int] + rest, 0, 0, 0, out)
         == FromBase64(rest, 2, j % 16, 0, out + [i * 4 + j / 16])
  {
    var a, b := Digit(i) as int, Digit(j) as int;
    OneByOne(a, b, a, rest);
    ReadDigit(i, [b] + rest, 0, 0, 0, out);
    ReadDigit(j, rest, 1, i, 0, out);
  }

  /** Three digits give two bytes and leave two bits over. */
  lemma ReadTriple(i: nat, j: nat, k: nat, rest: seq<Byte>, out: seq<Byte>)
    requires i < 64 && j < 64 && k < 64
    ensures FromBase64([Digit(i) as int, Digit(j) as int, Digit(k) as int] + rest, 0, 0, 0, out)
         == FromBase64(rest, 3, k % 4, 0, out + [i * 4 + j / 16, j % 16 * 16 + k / 4])
  {
    var a, b, c := Digit(i) as int, Digit(j) as int, Digit(k) as int;
    OneByOne(a, b, c, rest);
    OneByOne(a, b, c, [c] + rest);
    ReadPair(i, j, [c] + rest, out);
    ReadDigit(k, rest, 2, j % 16, 0, out + [i * 4 + j / 16]);
    assert out + [i * 4 + j / 16] + [j % 16 * 16 + k / 4] == out + [i * 4 + j / 16, j % 16 * 16 + k / 4];
  }

  lemma ReadQuad(x: Byte, y: Byte, z: Byte, rest: seq<Byte>, out: seq<Byte>)
    ensures FromBase64(Utf8(Quad(x, y, z)) + rest, 0, 0, 0, out) == FromBase64(rest, 0, 0, 0, out + [x, y, z])
  {
    var q := Quad(x, y, z);
    var i, j, k, l := x / 4, x % 4 * 16 + y / 16, y % 16 * 4 + z / 64, z % 64;
    Utf8Quad(x, y, z);
    assert Utf8(q) + rest == [q[0] as int, q[1] as int, q[2] as int] + ([q[3] as int] + rest);
    ReadTriple(i, j, k, [q[3] as int] + rest, out);
    assert i * 4 + j / 16 == x && j % 16 * 16 + k / 4 == y && k % 4 * 64 + l == z;
    ReadDigit(l, rest, 3, k % 4, 0, out + [x, y]);
    assert out + [x, y] + [z] == out + [x, y, z];
  }

  lemma ReadOne(x: Byte, out: seq<Byte>)
    ensures FromBase64(Utf8(Quad(x, 0, 0)[..2]) + [61, 61], 0, 0, 0, out) == Some(out + [x])
  {
    Utf8Quad(x, 0, 0);
    ReadPair(x / 4, x % 4 * 16, [61, 61], out);
    assert [61, 61][1..] == [61];
  }

  /** Three six-bit digits carry the sixteen bits of two bytes and two bits that are 0. */
  lemma TwoBytesBack(x: Byte, y: Byte)
    ensures
      var i, j, k := x / 4, x % 4 * 16 + y / 16, y % 16 * 4;
      i * 4 + j / 16 == x && j % 16 * 16 + k / 4 == y && k % 4 == 0
  {
  }

  lemma ReadTwo(x: Byte, y: Byte, out: seq<Byte>)
    ensures FromBase64(Utf8(Quad(x, y, 0)[..3]) + [61], 0, 0, 0, out) == Some(out + [x, y])
  {
    var i, j, k := x / 4, x % 4 * 16 + y / 16, y % 16 * 4;
    Utf8Quad(x, y, 0);
    TwoBytesBack(x, y);
    ReadTriple(i, j, k, [61], out);
    PadEnds(out + [x, y]);
  }

  lemma PadEnds(out: seq<Byte>)
    ensures FromBase64([61], 3, 0, 0, out) == Some(out)
  {
  }

  lemma Utf8Split(q: string, rest: string, pad: seq<Byte>)
    ensures Utf8(q + rest) + pad == Utf8(q) + (Utf8(rest) + pad)
  {
    Utf8Concat(q, rest);
    ConcatAssoc(Utf8(q), Utf8(rest), pad);
  }

  lemma QuadFirst(b: seq<Byte>, out: seq<Byte>)
    requires |b| >= 3
    ensures FromBase64(Utf8(Unpadded(b)) + Utf8(PadFor(|b|)), 0, 0, 0, out)
         == FromBase64(Utf8(Unpadded(b[3..])) + Utf8(PadFor(|b[3..]|)), 0, 0, 0, out + [b[0], b[1], b[2]])
  {
    var pad := PadFor(|b|);
    assert pad == PadFor(|b[3..]|);
    Utf8Split(Quad(b[0], b[1], b[2]), Unpadded(b[3..]), Utf8(pad));
    ReadQuad(b[0], b[1], b[2], Utf8(Unpadded(b[3..])) + Utf8(pad), out);
  }

  lemma ReadShort(b: seq<Byte>, out: seq<Byte>)
    requires |b| < 3
    ensures FromBase64(Utf8(Unpadded(b)) + Utf8(PadFor(|b|)), 0, 0, 0, out) == Some(out + b)
  {
    Utf8Pads();
    if b == [] {
      assert out + b == out;
    } else if |b| == 1 {
      ReadOne(b[0], out);
      assert b == [b[0]];
    } else {
      ReadTwo(b[0], b[1], out);
      assert b == [b[0], b[1]];
    }
  }

  lemma {:induction false} ReadAll(b: seq<Byte>, out: seq<Byte>)
    ensures FromBase64(Utf8(Unpadded(b)) + Utf8(PadFor(|b|)), 0, 0, 0, out) == Some(out + b)
    decreases |b|
  {
    if |b| < 3 {
      ReadShort(b, out);
    } else {
      QuadFirst(b, out);
      ReadAll(b[3..], out + [b[0], b[1], b[2]]);
      FirstThree(b, out);
    }
  }

  lemma FirstThree(b: seq<Byte>, out: seq<Byte>)
    requires |b| >= 3
    ensures out + [b[0], b[1], b[2]] + b[3..] == out + b
  {
  }

  lemma Utf8Pads()
    ensures Utf8("") == [] && Utf8("=") == [61] && Utf8("==") == [61, 61]
  {
    assert "="[1..] == "" && "=="[1..] == "=";
  }

  /** The padding `_decode_key` restores is the one `_encode_key` stripped. */
  lemma PadRestored(n: nat)
    ensures Pad((4 - (4 * n + 2) / 3 % 4) % 4) == PadFor(n)
    ensures (4 * n + 2) / 3 % 4 != 1
  {
    var q, r := n / 3, n % 3;
    assert n == 3 * q + r;
    if r == 0 {
      assert (4 * n + 2) / 3 == 4 * q;
    } else if r == 1 {
      assert (4 * n + 2) / 3 == 4 * q + 2;
      assert Pad(2) == "=" + Pad(1) && Pad(1) == "=" + Pad(0);
    } else {
      assert (4 * n + 2) / 3 == 4 * q + 3;
      assert Pad(1) == "=" + Pad(0);
    }
  }

  /** An encoding stripped of its padding is padded again as `_encode_key` had it. */
  lemma RepaddedIs(encoded: string, n: nat)
    requires |encoded| == (4 * n + 2) / 3
    ensures Pad((4 - |encoded| % 4) % 4) == PadFor(n)
    ensures |encoded| % 4 != 1
  {
    PadRestored(n);
  }

  lemma ReadPadded(b: seq<Byte>)
    ensures FromBase64(Utf8(Unpadded(b) + PadFor(|b|)), 0, 0, 0, []) == Some(b)
  {
    Utf8Concat(Unpadded(b), PadFor(|b|));
    var none: seq<Byte> := [];
    ReadAll(b, none);
    assert none + b == b;
  }

  lemma DecodeDigits(encoded: string, b: seq<Byte>)
    requires encoded == Unpadded(b)
    ensures FromBase64(Utf8(encoded + Pad((4 - |encoded| % 4) % 4)), 0, 0, 0, []) == Some(b)
  {
    UnpaddedLength(b);
    RepaddedIs(encoded, |b|);
    ReadPadded(b);
  }

  lemma DecodeBytes(encoded: string, b: seq<Byte>, key: string)
    requires FromBase64(Utf8(encoded + Pad((4 - |encoded| % 4) % 4)), 0, 0, 0, []) == Some(b)
    requires FromUtf8(b) == Some(key)
    ensures DecodeKey(encoded) == key
  {
  }

  // ----- What the digits say -----------------------------------------------------------------

  /** Table 2 of RFC 4648. */
  const ALPHABET: string :=
    "ABCDEFGHIJKLMNOPQRSTUVWXYZ" + "abcdefghijklmnopqrstuvwxyz" + "0123456789" + "-_"

  lemma UpperDigit(i: nat)
    requires i < 26
    ensures Digit(i) == "ABCDEFGHIJKLMNOPQRSTUVWXYZ"[i]
  {
  }

  lemma LowerDigit(i: nat)
    requires 26 <= i < 52
    ensures Digit(i) == "abcdefghijklmnopqrstuvwxyz"[i - 26]
  {
  }

  lemma DecimalDigit(i: nat)
    requires 52 <= i < 62
    ensures Digit(i) == "0123456789"[i - 52]
  {
  }

  /** Digit `i` is character `i` of the alphabet. */
  lemma DigitIs(i: nat)
    requires i < 64
    ensures |ALPHABET| == 64 && Digit(i) == ALPHABET[i]
  {
    if i < 26 {
      UpperDigit(i);
    } else if i < 52 {
      LowerDigit(i);
    } else if i < 62 {
      DecimalDigit(i);
    }
  }

  /** The number with these digits in base 64, most significant first. */
  ghost function Number(values: seq<nat>): nat {
    if values == [] then 0 else Number(values[..|values| - 1]) * 64 + values[|values| - 1]
  }

  ghost predicate HaveValues(digits: string, values: seq<nat>) {
    && |digits| == |values|
    && forall i :: 0 <= i < |values| ==> values[i] < 64 && digits[i] == ALPHABET[values[i]]
  }

  /** The digits stand for the number. */
  ghost predicate Spells(digits: string, number: int) {
    exists values: seq<nat> :: HaveValues(digits, values) && Number(values) == number
  }

  lemma NumberOfFour(a: nat, b: nat, c: nat, d: nat)
    ensures Number([a, b]) == a * 64 + b
    ensures Number([a, b, c]) == (a * 64 + b) * 64 + c
    ensures Number([a, b, c, d]) == ((a * 64 + b) * 64 + c) * 64 + d
  {
    assert [a][..0] == [] && [a, b][..1] == [a] && [a, b, c][..2] == [a, b] && [a, b, c, d][..3] == [a, b, c];
    assert Number([a]) == a;
  }

  lemma SpellsFour(a: nat, b: nat, c: nat, d: nat, n: int)
    requires a < 64 && b < 64 && c < 64 && d < 64 && ((a * 64 + b) * 64 + c) * 64 + d == n
    ensures Spells([Digit(a), Digit(b), Digit(c), Digit(d)], n)
  {
    DigitIs(a);
    DigitIs(b);
    DigitIs(c);
    DigitIs(d);
    NumberOfFour(a, b, c, d);
    assert HaveValues([Digit(a), Digit(b), Digit(c), Digit(d)], [a, b, c, d]);
  }

  lemma SpellsThree(a: nat, b: nat, c: nat, n: int)
    requires a < 64 && b < 64 && c < 64 && (a * 64 + b) * 64 + c == n
    ensures Spells([Digit(a), Digit(b), Digit(c)], n)
  {
    DigitIs(a);
    DigitIs(b);
    DigitIs(c);
    NumberOfFour(a, b, c, 0);
    assert HaveValues([Digit(a), Digit(b), Digit(c)], [a, b, c]);
  }

  lemma SpellsTwo(a: nat, b: nat, n: int)
    requires a < 64 && b < 64 && a * 64 + b == n
    ensures Spells([Digit(a), Digit(b)], n)
  {
    DigitIs(a);
    DigitIs(b);
    NumberOfFour(a, b, 0, 0);
    assert HaveValues([Digit(a), Digit(b)], [a, b]);
  }

  /** Three bytes are cut into four groups of six bits. */
  lemma SixBitsOfThree(x: Byte, y: Byte, z: Byte)
    ensures ((x / 4 * 64 + (x % 4 * 16 + y / 16)) * 64 + (y % 16 * 4 + z / 64)) * 64 + z % 64
         == BigEndian(x, y, z)
    ensures (x / 4 * 64 + (x % 4 * 16 + y / 16)) * 64 + y % 16 * 4 == BigEndian(0, x, y) * 4
    ensures x / 4 * 64 + x % 4 * 16 == BigEndian(0, 0, x) * 16
  {
  }

  function BigEndian(x: int, y: int, z: int): int {
    x * 65536 + y * 256 + z
  }

  lemma QuadSpells(x: Byte, y: Byte, z: Byte)
    ensures Spells(Quad(x, y, z), BigEndian(x, y, z))
  {
    SixBitsOfThree(x, y, z);
    SpellsFour(x / 4, x % 4 * 16 + y / 16, y % 16 * 4 + z / 64, z % 64, BigEndian(x, y, z));
  }

  lemma TripleSpells(x: Byte, y: Byte)
    ensures Spells(Quad(x, y, 0)[..3], BigEndian(0, x, y) * 4)
  {
    SixBitsOfThree(x, y, 0);
    SpellsThree(x / 4, x % 4 * 16 + y / 16, y % 16 * 4, BigEndian(0, x, y) * 4);
    assert Quad(x, y, 0)[..3] == [Digit(x / 4), Digit(x % 4 * 16 + y / 16), Digit(y % 16 * 4)];
  }

  lemma PairSpells(x: Byte)
    ensures Spells(Quad(x, 0, 0)[..2], BigEndian(0, 0, x) * 16)
  {
    SixBitsOfThree(x, 0, 0);
    SpellsTwo(x / 4, x % 4 * 16, BigEndian(0, 0, x) * 16);
    assert Quad(x, 0, 0)[..2] == [Digit(x / 4), Digit(x % 4 * 16)];
  }

  /** Block `i` of the digits spells block `i` of the bytes: four digits three bytes, and at the end three digits two
      bytes and two bits that are 0, or two digits one byte and four such bits. */
  ghost predicate SpellsBlock(digits: string, b: seq<Byte>, i: nat)
    requires 3 * i < |b| && |digits| == (4 * |b| + 2) / 3
  {
    if 3 * i + 3 <= |b| then Spells(digits[4 * i..4 * i + 4], BigEndian(b[3 * i], b[3 * i + 1], b[3 * i + 2]))
    else if 3 * i + 2 == |b| then Spells(digits[4 * i..], BigEndian(0, b[3 * i], b[3 * i + 1]) * 4)
    else Spells(digits[4 * i..], BigEndian(0, 0, b[3 * i]) * 16)
  }

  lemma FirstBlock(b: seq<Byte>)
    requires b != []
    ensures |Unpadded(b)| == (4 * |b| + 2) / 3 && SpellsBlock(Unpadded(b), b, 0)
  {
    UnpaddedLength(b);
    var digits := Unpadded(b);
    assert digits[0..] == digits;
    if |b| >= 3 {
      QuadSpells(b[0], b[1], b[2]);
      assert digits[0..4] == Quad(b[0], b[1], b[2]);
    } else if |b| == 2 {
      TripleSpells(b[0], b[1]);
    } else {
      PairSpells(b[0]);
    }
  }

  lemma {:induction false} UnpaddedSpells(b: seq<Byte>, i: nat)
    requires 3 * i < |b|
    ensures |Unpadded(b)| == (4 * |b| + 2) / 3 && SpellsBlock(Unpadded(b), b, i)
    decreases i
  {
    if i == 0 {
      FirstBlock(b);
    } else {
      var rest := b[3..];
      UnpaddedLength(b);
      UnpaddedSpells(rest, i - 1);
      LaterSlices(Quad(b[0], b[1], b[2]), Unpadded(rest), i);
    }
  }

  lemma LaterSlices(q: string, rest: string, i: nat)
    requires |q| == 4 && 1 <= i && 4 * i <= |q + rest|
    ensures (q + rest)[4 * i..] == rest[4 * (i - 1)..]
    ensures 4 * i + 4 <= |q + rest| ==> (q + rest)[4 * i..4 * i + 4] == rest[4 * (i - 1)..4 * (i - 1) + 4]
  {
  }

  /** An encoded key spells the bytes of the key block by block, in the alphabet of RFC 4648. */
  lemma EncodeKeySpells(key: string, i: nat)
    requires 3 * i < |Utf8(key)|
    ensures |EncodeKey(key)| == (4 * |Utf8(key)| + 2) / 3 && SpellsBlock(EncodeKey(key), Utf8(key), i)
  {
    EncodeKeyIs(key);
    UnpaddedSpells(Utf8(key), i);
  }

  /** Byte `i` of an encoded character. */
  ghost function At(c: char, i: nat): int {
    if i < |Utf8([c])| then Utf8([c])[i] else 0
  }

  /** The bytes of a character, as RFC 3629 has them: the width is the least for the code point, the first byte's
      marker tells it, the others are tails, and the payloads spell the code point. */
  lemma CharBytes(c: char)
    ensures
      var x, width := c as int, |Utf8([c])|;
      var a, b, d, e := At(c, 0), At(c, 1), At(c, 2), At(c, 3);
      && width == (if x < 0x80 then 1 else if x < 0x800 then 2 else if x < 0x10000 then 3 else 4)
      && (forall i :: 1 <= i < width ==> 0x80 <= At(c, i) < 0xC0)
      && (width == 1 ==> a == x)
      && (width == 2 ==> 0xC0 <= a < 0xE0 && (a - 0xC0) * 64 + (b - 0x80) == x)
      && (width == 3 ==> 0xE0 <= a < 0xF0 && (a - 0xE0) * 4096 + (b - 0x80) * 64 + (d - 0x80) == x)
      && (width == 4 ==>
            && 0xF0 <= a < 0xF8
            && (a - 0xF0) * 262144 + (b - 0x80) * 4096 + (d - 0x80) * 64 + (e - 0x80) == x)
  {
    SixBitGroups(c as int);
    assert [c][1..] == "" && Utf8("") == [];
    assert Utf8([c]) == EncodeChar(c);
  }

  // ----- What cannot be decoded ------------------------------------------------------------------

  predicate AllPads(b: seq<Byte>) {
    forall i :: 0 <= i < |b| ==> b[i] == 61
  }

  predicate AllDigits(b: seq<Byte>) {
    forall i :: 0 <= i < |b| ==> DigitValue(b[i]).Some?
  }

  lemma {:induction false} PadsAfterOne(b: seq<Byte>, left: nat, pads: nat, out: seq<Byte>)
    requires AllPads(b) && left < 64
    ensures FromBase64(b, 1, left, pads, out) == None
  {
    if b != [] { PadsAfterOne(b[1..], left, pads, out); }
  }

  /** Data that stops one digit into a quad is an error, whatever the padding. */
  lemma {:induction false} StopsInside(b: seq<Byte>, tail: seq<Byte>, quadPos: nat, left: nat, pads: nat,
      out: seq<Byte>)
    requires quadPos < 4 && left < 64 && (quadPos == 2 ==> left < 16) && (quadPos == 3 ==> left < 4)
    requires AllDigits(b) && AllPads(tail) && (quadPos + |b|) % 4 == 1
    ensures FromBase64(b + tail, quadPos, left, pads, out) == None
    decreases |b|
  {
    if b == [] {
      assert b + tail == tail;
      PadsAfterOne(tail, left, pads, out);
    } else {
      var v, rest := DigitValue(b[0]).value, b[1..];
      assert (b + tail)[1..] == rest + tail;
      if quadPos == 0 {
        StopsInside(rest, tail, 1, v, 0, out);
      } else if quadPos == 1 {
        StopsInside(rest, tail, 2, v % 16, 0, out + [left * 4 + v / 16]);
      } else if quadPos == 2 {
        StopsInside(rest, tail, 3, v % 4, 0, out + [left * 16 + v / 4]);
      } else {
        StopsInside(rest, tail, 0, 0, 0, out + [left * 64 + v]);
      }
    }
  }

  /** A byte that is neither a digit nor padding is as if it were not there. */
  lemma {:induction false} ForeignSkipped(a: seq<Byte>, x: Byte, b: seq<Byte>, quadPos: nat, left: nat, pads: nat,
      out: seq<Byte>)
    requires quadPos < 4 && left < 64 && (quadPos == 2 ==> left < 16) && (quadPos == 3 ==> left < 4)
    requires DigitValue(x).None? && x != 61
    ensures FromBase64(a + [x] + b, quadPos, left, pads, out) == FromBase64(a + b, quadPos, left, pads, out)
    decreases |a|
  {
    if a == [] {
      assert (a + [x] + b)[1..] == b && a + b == b;
    } else {
      var rest := a[1..];
      assert (a + [x] + b)[1..] == rest + [x] + b && (a + b)[1..] == rest + b;
      if a[0] == 61 {
        ForeignSkipped(rest, x, b, quadPos, left, if quadPos >= 2 then pads + 1 else pads, out);
      } else {
        match DigitValue(a[0])
        case None => ForeignSkipped(rest, x, b, quadPos, left, pads, out);
        case Some(v) =>
          if quadPos == 0 {
            ForeignSkipped(rest, x, b, 1, v, 0, out);
          } else if quadPos == 1 {
            ForeignSkipped(rest, x, b, 2, v % 16, 0, out + [left * 4 + v / 16]);
          } else if quadPos == 2 {
            ForeignSkipped(rest, x, b, 3, v % 4, 0, out + [left * 16 + v / 4]);
          } else {
            ForeignSkipped(rest, x, b, 0, 0, 0, out + [left * 64 + v]);
          }
      }
    }
  }

  lemma {:induction false} PadIs(n: nat)
    ensures |Pad(n)| == n && forall i :: 0 <= i < n ==> Pad(n)[i] == '='
  {
    if n > 0 { PadIs(n - 1); }
  }

  lemma SafeIsDigit(c: char)
    requires IsUrlSafe(c)
    ensures c as int < 0x80 && DigitValue(c as int).Some?
  {
  }

  /** A key of URL-safe characters whose length is 1 modulo 4 was never encoded, and comes back as it is. */
  lemma UndecodableKept(encoded: string)
    requires |encoded| % 4 == 1 && forall i :: 0 <= i < |encoded| ==> IsUrlSafe(encoded[i])
    ensures DecodeKey(encoded) == encoded
  {
    var pad := Pad((4 - |encoded| % 4) % 4);
    PadIs((4 - |encoded| % 4) % 4);
    forall i | 0 <= i < |encoded| ensures encoded[i] as int < 0x80 && DigitValue(encoded[i] as int).Some? {
      SafeIsDigit(encoded[i]);
    }
    Utf8Ascii(encoded);
    Utf8Ascii(pad);
    Utf8Concat(encoded, pad);
    StopsInside(Utf8(encoded), Utf8(pad), 0, 0, 0, []);
  }

  /** Key round trip: decoding an encoded key gives the key back, for every key. */
  lemma KeyRoundTrip(key: string)
    ensures DecodeKey(EncodeKey(key)) == key
  {
    var b := Utf8(key);
    EncodeKeyIs(key);
    DecodeDigits(EncodeKey(key), b);
    Utf8RoundTrip(key);
    DecodeBytes(EncodeKey(key), b, key);
  }

  /** Different keys have different encodings. */
  lemma EncodeKeyInjective(a: string, b: string)
    requires EncodeKey(a) == EncodeKey(b)
    ensures a == b
  {
    KeyRoundTrip(a);
    KeyRoundTrip(b);
  }

  /** An encoded key uses the URL-safe alphabet only, takes ceil(4n / 3) characters for n bytes,
      and never has a length of 1 modulo 4. */
  lemma EncodeKeyShape(key: string)
    ensures forall i :: 0 <= i < |EncodeKey(key)| ==> IsUrlSafe(EncodeKey(key)[i])
    ensures |EncodeKey(key)| == (4 * |Utf8(key)| + 2) / 3
    ensures |EncodeKey(key)| % 4 != 1
  {
    EncodeKeyIs(key);
    UnpaddedSafe(Utf8(key));
    UnpaddedLength(Utf8(key));
    RepaddedIs(EncodeKey(key), |Utf8(key)|);
  }
}
