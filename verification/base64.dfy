/**
 * `encodeToBase64` from the admin product pages: the UTF-8 bytes of a
 * string (section 3 of RFC 3629) in base64 with padding (section 4 of
 * RFC 4648). Decoders for both layers are given as the partners that the
 * round-trip lemmas relate the encoders to.
 */
module Base64 {
  import opened Js

  type byte = x: int | 0 <= x < 256

  // ---------------------------------------------------------------------
  // UTF-8 (section 3 of RFC 3629)
  // ---------------------------------------------------------------------

  /** A continuation byte `10xxxxxx` carrying six bits. */
  function Cont(six: int): (b: byte)
    requires 0 <= six < 64
    ensures 0x80 <= b < 0xC0 && b - 0x80 == six
  {
    0x80 + six
  }

  /** The UTF-8 bytes of one scalar value: one byte below U+0080, two below U+0800, three below U+10000, four beyond. */
  function CharBytes(c: char): (bs: seq<byte>)
    ensures 1 <= |bs| <= 4
    ensures |bs| == 1 <==> c as int < 0x80
    ensures |bs| == 2 <==> 0x80 <= c as int < 0x800
    ensures |bs| == 3 <==> 0x800 <= c as int < 0x10000
    ensures |bs| == 4 <==> 0x10000 <= c as int
    ensures |bs| == 1 ==> bs[0] == c as int
    ensures |bs| > 1 ==> forall i :: 1 <= i < |bs| ==> 0x80 <= bs[i] < 0xC0
  {
    var n := c as int;
    var q1 := n / 64;
    var q2 := q1 / 64;
    var q3 := q2 / 64;
    if n < 0x80 then [n]
    else if n < 0x800 then [0xC0 + q1, Cont(n % 64)]
    else if n < 0x10000 then [0xE0 + q2, Cont(q1 % 64), Cont(n % 64)]
    else [0xF0 + q3, Cont(q2 % 64), Cont(q1 % 64), Cont(n % 64)]
  }

  /** `new TextEncoder().encode(s)`. */
  function Utf8(s: string): (bs: seq<byte>)
    ensures |s| <= |bs| <= 4 * |s|
    ensures |s| > 0 ==> bs == CharBytes(s[0]) + Utf8(s[1..])
  {
    if |s| == 0 then [] else CharBytes(s[0]) + Utf8(s[1..])
  }

  predicate IsCont(b: byte) {
    0x80 <= b < 0xC0
  }

  /** Whether `n` is a Unicode scalar value, i.e. a Dafny `char`. */
  predicate IsScalar(n: int) {
    (0 <= n < 0xD800) || (0xE000 <= n < 0x110000)
  }

  /**
   * Reads one character from the front of `bs`: the character and the
   * number of bytes it took, or `None` for a malformed or overlong
   * sequence, a surrogate or a value beyond U+10FFFF.
   */
  function DecodeChar(bs: seq<byte>): (r: Option<(char, nat)>)
    ensures r.Some? ==> 1 <= r.value.1 <= 4 && r.value.1 <= |bs|
  {
    if |bs| == 0 then None
    else
      var b0 := bs[0];
      if b0 < 0x80 then Some((b0 as char, 1))
      else if 0xC0 <= b0 < 0xE0 && |bs| >= 2 && IsCont(bs[1]) then
        var n := (b0 as int - 0xC0) * 64 + (bs[1] as int - 0x80);
        if n < 0x80 then None else Some((n as char, 2))
      else if 0xE0 <= b0 < 0xF0 && |bs| >= 3 && IsCont(bs[1]) && IsCont(bs[2]) then
        var n := ((b0 as int - 0xE0) * 64 + (bs[1] as int - 0x80)) * 64 + (bs[2] as int - 0x80);
        if n < 0x800 || !IsScalar(n) then None else Some((n as char, 3))
      else if 0xF0 <= b0 < 0xF8 && |bs| >= 4 && IsCont(bs[1]) && IsCont(bs[2]) && IsCont(bs[3]) then
        var n := (((b0 as int - 0xF0) * 64 + (bs[1] as int - 0x80)) * 64 + (bs[2] as int - 0x80)) * 64 + (bs[3] as int - 0x80);
        if n < 0x10000 || !IsScalar(n) then None else Some((n as char, 4))
      else None
  }

  /** UTF-8 decoding of a whole byte sequence; `None` when any part is malformed. */
  function Utf8Decode(bs: seq<byte>): (r: Option<string>)
    decreases |bs|
  {
    if |bs| == 0 then Some([])
    else
      match DecodeChar(bs)
      case None => None
      case Some((c, k)) =>
        match Utf8Decode(bs[k..])
        case None => None
        case Some(rest) => Some([c] + rest)
  }

  /** Decoding the bytes of one character, whatever follows them, gives the character back. */
  lemma DecodeCharBytes(c: char, rest: seq<byte>)
    ensures DecodeChar(CharBytes(c) + rest) == Some((c, |CharBytes(c)|))
  {
    var n := c as int;
    if n < 0x80 {
    } else if n < 0x800 {
      DecodeTwo(c, rest);
    } else if n < 0x10000 {
      DecodeThree(c, rest);
    } else {
      DecodeFour(c, rest);
    }
  }

  lemma DecodeTwo(c: char, rest: seq<byte>)
    requires 0x80 <= c as int < 0x800
    ensures DecodeChar(CharBytes(c) + rest) == Some((c, 2))
  {
    var n := c as int;
    var bs := CharBytes(c) + rest;
    assert n == (n / 64) * 64 + n % 64;
    assert bs[0] - 0xC0 == n / 64 && bs[1] - 0x80 == n % 64;
  }

  lemma DecodeThree(c: char, rest: seq<byte>)
    requires 0x800 <= c as int < 0x10000
    ensures DecodeChar(CharBytes(c) + rest) == Some((c, 3))
  {
    var n := c as int;
    var q1 := n / 64;
    var bs := CharBytes(c) + rest;
    assert n == q1 * 64 + n % 64;
    assert q1 == (q1 / 64) * 64 + q1 % 64;
    assert bs[0] - 0xE0 == q1 / 64 && bs[1] - 0x80 == q1 % 64 && bs[2] - 0x80 == n % 64;
  }

  lemma DecodeFour(c: char, rest: seq<byte>)
    requires 0x10000 <= c as int
    ensures DecodeChar(CharBytes(c) + rest) == Some((c, 4))
  {
    var n := c as int;
    var q1 := n / 64;
    var q2 := q1 / 64;
    var bs := CharBytes(c) + rest;
    assert n == q1 * 64 + n % 64;
    assert q1 == q2 * 64 + q1 % 64;
    assert q2 == (q2 / 64) * 64 + q2 % 64;
    assert bs[0] - 0xF0 == q2 / 64 && bs[1] - 0x80 == q2 % 64 && bs[2] - 0x80 == q1 % 64 && bs[3] - 0x80 == n % 64;
  }

  /** UTF-8 decoding undoes UTF-8 encoding. */
  lemma {:induction false} Utf8RoundTrip(s: string)
    ensures Utf8Decode(Utf8(s)) == Some(s)
  {
    if |s| > 0 {
      var head := CharBytes(s[0]);
      var bs := Utf8(s);
      DecodeCharBytes(s[0], Utf8(s[1..]));
      assert bs[|head|..] == Utf8(s[1..]);
      Utf8RoundTrip(s[1..]);
      assert [s[0]] + s[1..] == s;
    }
  }

  /** An ASCII string is its own byte sequence. */
  lemma {:induction false} AsciiIsOneBytePerChar(s: string)
    requires forall i :: 0 <= i < |s| ==> s[i] as int < 0x80
    ensures |Utf8(s)| == |s|
    ensures forall i :: 0 <= i < |s| ==> Utf8(s)[i] == s[i] as int
  {
    if |s| > 0 {
      AsciiIsOneBytePerChar(s[1..]);
    }
  }

  // ---------------------------------------------------------------------
  // base64 (section 4 of RFC 4648)
  // ---------------------------------------------------------------------

  /** The base64 alphabet, Table 1 of RFC 4648: index to character. */
  function Sextet(n: int): (c: char)
    requires 0 <= n < 64
  {
    if n < 26 then ('A' as int + n) as char
    else if n < 52 then ('a' as int + (n - 26)) as char
    else if n < 62 then ('0' as int + (n - 52)) as char
    else if n == 62 then '+'
    else '/'
  }

  /** The alphabet backwards: character to index, `None` outside the alphabet (the pad `=` included). */
  function IndexOf(c: char): (r: Option<nat>)
    ensures r.Some? ==> r.value < 64 && Sextet(r.value) == c
  {
    if 'A' <= c <= 'Z' then Some(c as int - 'A' as int)
    else if 'a' <= c <= 'z' then Some(c as int - 'a' as int + 26)
    else if '0' <= c <= '9' then Some(c as int - '0' as int + 52)
    else if c == '+' then Some(62)
    else if c == '/' then Some(63)
    else None
  }

  lemma IndexOfSextet(n: int)
    requires 0 <= n < 64
    ensures IndexOf(Sextet(n)) == Some(n)
  {
  }

  predicate InAlphabet(c: char) {
    IndexOf(c).Some?
  }

  /** Three bytes as four characters: 24 bits cut into four six-bit groups, most significant first. */
  function Quad(b0: byte, b1: byte, b2: byte): (q: string)
    ensures |q| == 4 && forall i :: 0 <= i < 4 ==> InAlphabet(q[i])
  {
    IndexOfSextet(b0 / 4);
    IndexOfSextet((b0 % 4) * 16 + b1 / 16);
    IndexOfSextet((b1 % 16) * 4 + b2 / 64);
    IndexOfSextet(b2 % 64);
    [Sextet(b0 / 4), Sextet((b0 % 4) * 16 + b1 / 16), Sextet((b1 % 16) * 4 + b2 / 64), Sextet(b2 % 64)]
  }

  /** A final group of one byte: two characters and "==". */
  function QuadOfOne(b0: byte): (q: string)
    ensures |q| == 4 && InAlphabet(q[0]) && InAlphabet(q[1]) && q[2] == '=' && q[3] == '='
  {
    IndexOfSextet(b0 / 4);
    IndexOfSextet((b0 % 4) * 16);
    [Sextet(b0 / 4), Sextet((b0 % 4) * 16), '=', '=']
  }

  /** A final group of two bytes: three characters and "=". */
  function QuadOfTwo(b0: byte, b1: byte): (q: string)
    ensures |q| == 4 && InAlphabet(q[0]) && InAlphabet(q[1]) && InAlphabet(q[2]) && q[3] == '='
  {
    IndexOfSextet(b0 / 4);
    IndexOfSextet((b0 % 4) * 16 + b1 / 16);
    IndexOfSextet((b1 % 16) * 4);
    [Sextet(b0 / 4), Sextet((b0 % 4) * 16 + b1 / 16), Sextet((b1 % 16) * 4), '=']
  }

  /** Every character is in the alphabet or is the pad `=`. */
  predicate Base64Chars(r: string) {
    forall i :: 0 <= i < |r| ==> InAlphabet(r[i]) || r[i] == '='
  }

  /** Every character is in the alphabet proper. */
  predicate AllAlphabet(r: string) {
    forall i :: 0 <= i < |r| ==> InAlphabet(r[i])
  }

  /** `btoa` of a binary string, given as its bytes. */
  function Encode(bs: seq<byte>): (r: string)
    ensures |r| == 4 * ((|bs| + 2) / 3)
  {
    if |bs| == 0 then ""
    else if |bs| == 1 then QuadOfOne(bs[0])
    else if |bs| == 2 then QuadOfTwo(bs[0], bs[1])
    else
      GroupCount(|bs|);
      Quad(bs[0], bs[1], bs[2]) + Encode(bs[3..])
  }

  lemma GroupCount(n: int)
    requires n >= 3
    ensures 4 + 4 * ((n - 3 + 2) / 3) == 4 * ((n + 2) / 3)
  {
  }

  lemma CharsAppend(q: string, r: string)
    requires AllAlphabet(q) && Base64Chars(r)
    ensures Base64Chars(q + r)
    ensures AllAlphabet(r) ==> AllAlphabet(q + r)
  {
  }

  /** The output uses only the alphabet and the pad, and the pad only when the length is not a multiple of three. */
  lemma {:induction false} EncodeUsesAlphabet(bs: seq<byte>)
    ensures Base64Chars(Encode(bs))
    ensures |bs| % 3 == 0 ==> AllAlphabet(Encode(bs))
  {
    if |bs| >= 3 {
      EncodeUsesAlphabet(bs[3..]);
      CharsAppend(Quad(bs[0], bs[1], bs[2]), Encode(bs[3..]));
    }
  }

  /** One group of four characters back to its bytes; a padded group must have its unused bits zero. */
  function DecodeQuad(q: string): (r: Option<seq<byte>>)
    requires |q| == 4
    ensures r.Some? ==> 1 <= |r.value| <= 3
  {
    var i0, i1, i2, i3 := IndexOf(q[0]), IndexOf(q[1]), IndexOf(q[2]), IndexOf(q[3]);
    if i0.None? || i1.None? then None
    else if q[2] == '=' && q[3] == '=' then
      if i1.value % 16 != 0 then None
      else Some([i0.value * 4 + i1.value / 16])
    else if i2.None? then None
    else if q[3] == '=' then
      if i2.value % 4 != 0 then None
      else Some([i0.value * 4 + i1.value / 16, (i1.value % 16) * 16 + i2.value / 4])
    else if i3.None? then None
    else Some([i0.value * 4 + i1.value / 16, (i1.value % 16) * 16 + i2.value / 4, (i2.value % 4) * 64 + i3.value])
  }

  /** `atob` as bytes: groups of four, padding only in the last group. */
  function Decode(s: string): (r: Option<seq<byte>>)
    decreases |s|
  {
    if |s| == 0 then Some([])
    else if |s| < 4 then None
    else
      match DecodeQuad(s[..4])
      case None => None
      case Some(bs) =>
        if |bs| < 3 then (if |s| == 4 then Some(bs) else None)
        else
          match Decode(s[4..])
          case None => None
          case Some(rest) => Some(bs + rest)
  }

  /** The two halves of `a * 16 + b` come back apart. */
  lemma Split16(a: int, b: int)
    requires 0 <= b < 16
    ensures (a * 16 + b) / 16 == a && (a * 16 + b) % 16 == b
  {
  }

  lemma Split4(a: int, b: int)
    requires 0 <= b < 4
    ensures (a * 4 + b) / 4 == a && (a * 4 + b) % 4 == b
  {
  }

  lemma {:induction false} QuadRoundTrip(b0: byte, b1: byte, b2: byte)
    ensures DecodeQuad(Quad(b0, b1, b2)) == Some([b0, b1, b2])
  {
    var s0, s1, s2, s3 := b0 / 4, (b0 % 4) * 16 + b1 / 16, (b1 % 16) * 4 + b2 / 64, b2 % 64;
    IndexOfSextet(s0);
    IndexOfSextet(s1);
    IndexOfSextet(s2);
    IndexOfSextet(s3);
    Split16(b0 % 4, b1 / 16);
    Split4(b1 % 16, b2 / 64);
    assert s0 * 4 + s1 / 16 == b0;
    assert (s1 % 16) * 16 + s2 / 4 == b1;
    assert (s2 % 4) * 64 + s3 == b2;
  }

  lemma QuadOfOneRoundTrip(b0: byte)
    ensures DecodeQuad(QuadOfOne(b0)) == Some([b0])
  {
    IndexOfSextet(b0 / 4);
    IndexOfSextet((b0 % 4) * 16);
  }

  lemma QuadOfTwoRoundTrip(b0: byte, b1: byte)
    ensures DecodeQuad(QuadOfTwo(b0, b1)) == Some([b0, b1])
  {
    IndexOfSextet(b0 / 4);
    IndexOfSextet((b0 % 4) * 16 + b1 / 16);
    IndexOfSextet((b1 % 16) * 4);
  }

  /** A last, padded group decodes on its own. */
  lemma DecodeLastQuad(q: string, x: seq<byte>)
    requires |q| == 4 && DecodeQuad(q) == Some(x) && |x| < 3
    ensures Decode(q) == Some(x)
  {
    assert q[..4] == q;
  }

  /** A full group in front of the rest decodes to its three bytes in front of the rest's bytes. */
  lemma DecodeFullQuad(q: string, rest: string, x: seq<byte>, y: seq<byte>)
    requires |q| == 4 && DecodeQuad(q) == Some(x) && |x| == 3 && Decode(rest) == Some(y)
    ensures Decode(q + rest) == Some(x + y)
  {
    assert (q + rest)[..4] == q;
    assert (q + rest)[4..] == rest;
  }

  /** Base64 decoding undoes base64 encoding. */
  lemma {:induction false} EncodeRoundTrip(bs: seq<byte>)
    ensures Decode(Encode(bs)) == Some(bs)
  {
    if 1 <= |bs| <= 2 {
      ShortRoundTrip(bs);
    } else if |bs| >= 3 {
      EncodeRoundTrip(bs[3..]);
      FullGroupRoundTrip(bs[..3], bs[3..]);
      assert bs[..3] + bs[3..] == bs;
    }
  }

  lemma {:induction false} ShortRoundTrip(bs: seq<byte>)
    requires 1 <= |bs| <= 2
    ensures Decode(Encode(bs)) == Some(bs)
  {
    if |bs| == 1 {
      QuadOfOneRoundTrip(bs[0]);
      DecodeLastQuad(QuadOfOne(bs[0]), [bs[0]]);
      assert [bs[0]] == bs;
    } else {
      QuadOfTwoRoundTrip(bs[0], bs[1]);
      DecodeLastQuad(QuadOfTwo(bs[0], bs[1]), [bs[0], bs[1]]);
      assert [bs[0], bs[1]] == bs;
    }
  }

  lemma {:induction false} FullGroupRoundTrip(x: seq<byte>, rest: seq<byte>)
    requires |x| == 3 && Decode(Encode(rest)) == Some(rest)
    ensures Decode(Encode(x + rest)) == Some(x + rest)
  {
    EncodeFullGroup(x, rest);
    DecodeGroupThenRest(x, Encode(rest), rest);
  }

  lemma DecodeGroupThenRest(x: seq<byte>, t: string, rest: seq<byte>)
    requires |x| == 3 && Decode(t) == Some(rest)
    ensures Decode(Quad(x[0], x[1], x[2]) + t) == Some(x + rest)
  {
    QuadRoundTrip(x[0], x[1], x[2]);
    assert [x[0], x[1], x[2]] == x;
    DecodeFullQuad(Quad(x[0], x[1], x[2]), t, x, rest);
  }

  lemma EncodeFullGroup(x: seq<byte>, rest: seq<byte>)
    requires |x| == 3
    ensures Encode(x + rest) == Quad(x[0], x[1], x[2]) + Encode(rest)
  {
    assert (x + rest)[3..] == rest;
  }

  // ---------------------------------------------------------------------
  // encodeToBase64
  // ---------------------------------------------------------------------

  /**
   * `encodeToBase64`: "" for the empty string, otherwise the base64 of the
   * string's UTF-8 bytes. The `TextEncoder` path cannot throw for a string
   * of scalar values, so the two fallbacks are never reached.
   */
  function EncodeToBase64(s: string): (r: string)
    ensures s == "" <==> r == ""
    ensures |r| == 4 * ((|Utf8(s)| + 2) / 3)
    ensures Base64Chars(r)
  {
    EncodeUsesAlphabet(Utf8(s));
    if s == "" then "" else Encode(Utf8(s))
  }

  /** The text decoded from a header value: base64, then UTF-8. */
  function DecodeText(h: string): (r: Option<string>)
  {
    match Decode(h)
    case None => None
    case Some(bs) => Utf8Decode(bs)
  }

  /** A header written by `encodeToBase64` reads back as the original text. */
  lemma {:induction false} EncodeToBase64RoundTrip(s: string)
    ensures DecodeText(EncodeToBase64(s)) == Some(s)
  {
    EncodeRoundTrip(Utf8(s));
    Utf8RoundTrip(s);
  }

  /** The early return for "" agrees with the general path. */
  lemma EmptyMatchesGeneralPath()
    ensures EncodeToBase64("") == Encode(Utf8(""))
  {
  }

  /** An ASCII string of n characters gives 4·⌈n/3⌉ characters. */
  lemma {:induction false} AsciiLength(s: string)
    requires forall i :: 0 <= i < |s| ==> s[i] as int < 0x80
    ensures |EncodeToBase64(s)| == 4 * ((|s| + 2) / 3)
  {
    AsciiIsOneBytePerChar(s);
  }

  /** The test vectors of section 10 of RFC 4648, for the ASCII strings "f", "fo" and "foo". */
  lemma RfcTestVectors()
    ensures EncodeToBase64("f") == "Zg=="
    ensures EncodeToBase64("fo") == "Zm8="
    ensures EncodeToBase64("foo") == "Zm9v"
  {
    assert Utf8("f") == [0x66];
    assert Utf8("fo") == [0x66, 0x6F];
    assert Utf8("foo") == [0x66, 0x6F, 0x6F];
  }

  /** A two-byte and a three-byte character: "é" is C3 A9, "あ" is E3 81 82. */
  lemma TwoByteExample()
    ensures Utf8("é") == [0xC3, 0xA9]
  {
  }

  lemma ThreeByteExample()
    ensures Utf8("あ") == [0xE3, 0x81, 0x82]
  {
    assert Utf8("あ") == CharBytes('あ') + Utf8("");
  }

  lemma HiraganaExample()
    ensures EncodeToBase64("あ") == "44GC"
  {
    ThreeByteExample();
  }
}
