/**
 UTF-8 as the display layer sees it: encoding (section 3 of RFC 3629), strict decoding of one code point, and the
 replacement of invalid runs by U+FFFD.
 */
module Utf8 {
  import opened Wrappers
  import opened ByteSearch

  datatype Rune = Rune(c: char, width: nat)

  const REPLACEMENT: char := '\U{FFFD}'

  function Width(c: char): (w: nat)
    ensures 1 <= w <= 4
  {
    if c as int < 0x80 then 1 else if c as int < 0x800 then 2 else if c as int < 0x10000 then 3 else 4
  }

  function Encode(c: char): (b: Bytes)
    ensures |b| == Width(c)
  {
    var n := c as int;
    if n < 0x80 then [n as byte]
    else if n < 0x800 then [(0xC0 + n / 64) as byte, Tail(n)]
    else if n < 0x10000 then [(0xE0 + n / 4096) as byte, Tail(n / 64), Tail(n)]
    else [(0xF0 + n / 262144) as byte, Tail(n / 4096), Tail(n / 64), Tail(n)]
  }

  function Tail(n: nat): byte {
    (0x80 + n % 64) as byte
  }

  predicate IsTail(b: byte) {
    0x80 <= b < 0xC0
  }

  function Bits(b: byte): int {
    b as int - 0x80
  }

  /** The code point at the front, or None for a byte that starts no shortest-form scalar value. */
  function DecodeRune(b: Bytes): (r: Option<Rune>)
    requires b != []
    ensures r.Some? ==> 1 <= r.value.width <= |b|
  {
    var lead := b[0] as int;
    if lead < 0x80 then Some(Rune(lead as char, 1))
    else if lead < 0xC0 then None
    else if lead < 0xE0 then
      if |b| < 2 || !IsTail(b[1]) then None else
      Scalar((lead - 0xC0) * 64 + Bits(b[1]), 0x80, 2)
    else if lead < 0xF0 then
      if |b| < 3 || !IsTail(b[1]) || !IsTail(b[2]) then None else
      Scalar((lead - 0xE0) * 4096 + Bits(b[1]) * 64 + Bits(b[2]), 0x800, 3)
    else if lead < 0xF8 then
      if |b| < 4 || !IsTail(b[1]) || !IsTail(b[2]) || !IsTail(b[3]) then None else
      Scalar((lead - 0xF0) * 262144 + Bits(b[1]) * 4096 + Bits(b[2]) * 64 + Bits(b[3]), 0x10000, 4)
    else None
  }

  /** Overlong forms, surrogates and values past U+10FFFF are not code points. */
  function Scalar(n: int, least: int, width: nat): (r: Option<Rune>)
    ensures r.Some? ==> r.value.width == width
  {
    if least <= n && (0 <= n < 0xD800 || 0xE000 <= n <= 0x10FFFF) then Some(Rune(n as char, width)) else None
  }

  function EncodeAll(s: string): Bytes {
    if s == [] then [] else Encode(s[0]) + EncodeAll(s[1..])
  }

  /** The bytes a display string costs. */
  function ByteLen(s: string): nat {
    if s == [] then 0 else Width(s[0]) + ByteLen(s[1..])
  }

  lemma {:induction false} ByteLenCountsBytes(s: string)
    ensures ByteLen(s) == |EncodeAll(s)|
  {
    if s != [] {
      ByteLenCountsBytes(s[1..]);
    }
  }

  /** `afterInvalid` says that the previous byte already stands for a replacement character. */
  function SanitizeFrom(b: Bytes, afterInvalid: bool): string {
    if b == [] then [] else
    match DecodeRune(b)
    case Some(r) => [r.c] + SanitizeFrom(b[r.width..], false)
    case None => (if afterInvalid then [] else [REPLACEMENT]) + SanitizeFrom(b[1..], true)
  }

  function Sanitize(b: Bytes): string {
    SanitizeFrom(b, false)
  }

  lemma Sextets(n: nat)
    ensures n == n / 64 * 64 + n % 64
    ensures n / 64 == n / 4096 * 64 + n / 64 % 64
    ensures n / 4096 == n / 262144 * 64 + n / 4096 % 64
  {
    assert n / 4096 == n / 64 / 64;
    assert n / 262144 == n / 4096 / 64;
  }

  lemma DecodeEncoded(c: char, rest: Bytes)
    ensures DecodeRune(Encode(c) + rest) == Some(Rune(c, |Encode(c)|))
  {
    var n, b := c as int, Encode(c) + rest;
    Sextets(n);
    if n < 0x80 {
      assert b[0] == n as byte;
    } else if n < 0x800 {
      assert b[0] == (0xC0 + n / 64) as byte && b[1] == Tail(n);
    } else if n < 0x10000 {
      assert b[0] == (0xE0 + n / 4096) as byte && b[1] == Tail(n / 64) && b[2] == Tail(n);
    } else {
      assert b[0] == (0xF0 + n / 262144) as byte && b[1] == Tail(n / 4096) && b[2] == Tail(n / 64) && b[3] == Tail(n);
    }
  }

  /** One code point of each length, as section 3 of RFC 3629 encodes it, at the ends of the ranges. */
  lemma EncodingExamples()
    ensures Encode('A') == [0x41] && Encode('\U{7F}') == [0x7F]
    ensures Encode('\U{80}') == [0xC2, 0x80] && Encode('\U{7FF}') == [0xDF, 0xBF]
    ensures Encode('\U{800}') == [0xE0, 0xA0, 0x80] && Encode('\U{FFFD}') == [0xEF, 0xBF, 0xBD]
    ensures Encode('\U{10000}') == [0xF0, 0x90, 0x80, 0x80] && Encode('\U{10FFFF}') == [0xF4, 0x8F, 0xBF, 0xBF]
  {
  }

  lemma Sextet2(hi: nat, lo: nat)
    requires lo < 64
    ensures (hi * 64 + lo) / 64 == hi && (hi * 64 + lo) % 64 == lo
  {
  }

  lemma Decoded2(b: Bytes)
    requires |b| >= 2 && 0xC2 <= b[0] < 0xE0 && IsTail(b[1])
    ensures var n := (b[0] as int - 0xC0) * 64 + Bits(b[1]);
      0x80 <= n < 0x800 && Encode(n as char) == b[..2]
  {
    Sextet2(b[0] as int - 0xC0, Bits(b[1]));
  }

  lemma Decoded3(b: Bytes, n: int)
    requires |b| >= 3 && 0xE0 <= b[0] < 0xF0 && IsTail(b[1]) && IsTail(b[2])
    requires n == (b[0] as int - 0xE0) * 4096 + Bits(b[1]) * 64 + Bits(b[2])
    requires 0x800 <= n && (n < 0xD800 || 0xE000 <= n <= 0x10FFFF)
    ensures Encode(n as char) == b[..3]
  {
    Sextet2((b[0] as int - 0xE0) * 64 + Bits(b[1]), Bits(b[2]));
    Sextet2(b[0] as int - 0xE0, Bits(b[1]));
    Sextets(n);
  }

  lemma Decoded4(b: Bytes, n: int)
    requires |b| >= 4 && 0xF0 <= b[0] < 0xF8 && IsTail(b[1]) && IsTail(b[2]) && IsTail(b[3])
    requires n == (b[0] as int - 0xF0) * 262144 + Bits(b[1]) * 4096 + Bits(b[2]) * 64 + Bits(b[3])
    requires 0x10000 <= n <= 0x10FFFF
    ensures Encode(n as char) == b[..4]
  {
    Sextet2(((b[0] as int - 0xF0) * 64 + Bits(b[1])) * 64 + Bits(b[2]), Bits(b[3]));
    Sextet2((b[0] as int - 0xF0) * 64 + Bits(b[1]), Bits(b[2]));
    Sextet2(b[0] as int - 0xF0, Bits(b[1]));
    Sextets(n);
  }

  /** The decoder accepts exactly the encodings: no overlong form, no surrogate, nothing past U+10FFFF. */
  lemma DecodeIsExact(b: Bytes)
    requires b != []
    ensures match DecodeRune(b)
      case Some(r) => r.width == Width(r.c) && Encode(r.c) <= b
      case None => forall c :: !(Encode(c) <= b)
  {
    match DecodeRune(b)
    case Some(r) =>
      var lead := b[0] as int;
      if lead < 0x80 {
      } else if lead < 0xE0 {
        Decoded2(b);
      } else if lead < 0xF0 {
        Decoded3(b, r.c as int);
      } else {
        Decoded4(b, r.c as int);
      }
    case None =>
      forall c ensures !(Encode(c) <= b) {
        if Encode(c) <= b {
          assert Encode(c) + b[|Encode(c)|..] == b;
          DecodeEncoded(c, b[|Encode(c)|..]);
        }
      }
  }

  /** No code point starts anywhere in these bytes, whatever follows them being `rest`. */
  ghost predicate Invalid(bad: Bytes, rest: Bytes) {
    forall i :: 0 <= i < |bad| ==> DecodeRune(bad[i..] + rest).None?
  }

  lemma {:induction false} InvalidRun(bad: Bytes, rest: Bytes, afterInvalid: bool)
    requires Invalid(bad, rest)
    ensures SanitizeFrom(bad + rest, afterInvalid)
            == (if bad == [] || afterInvalid then [] else [REPLACEMENT]) + SanitizeFrom(rest, afterInvalid || bad != [])
    decreases |bad|
  {
    if bad == [] {
      assert bad + rest == rest;
    } else {
      assert bad[0..] == bad && (bad + rest)[1..] == bad[1..] + rest;
      forall i | 0 <= i < |bad[1..]| ensures DecodeRune(bad[1..][i..] + rest).None? {
        assert bad[1..][i..] == bad[i + 1..];
      }
      InvalidRun(bad[1..], rest, true);
    }
  }

  lemma FirstThenTail(c: char, tail: Bytes, afterInvalid: bool)
    ensures SanitizeFrom(Encode(c) + tail, afterInvalid) == [c] + SanitizeFrom(tail, false)
  {
    DecodeEncoded(c, tail);
    hide DecodeRune, Encode;
    assert (Encode(c) + tail)[|Encode(c)|..] == tail;
  }

  lemma {:induction false} ValidThenRest(s: string, rest: Bytes, afterInvalid: bool)
    ensures SanitizeFrom(EncodeAll(s) + rest, afterInvalid) == s + SanitizeFrom(rest, if s == [] then afterInvalid else false)
  {
    hide DecodeRune, Encode;
    if s == [] {
      assert EncodeAll(s) + rest == rest;
    } else {
      var tail := EncodeAll(s[1..]) + rest;
      ValidThenRest(s[1..], rest, false);
      FirstThenTail(s[0], tail, afterInvalid);
      assert EncodeAll(s) + rest == Encode(s[0]) + tail;
      assert [s[0]] + (s[1..] + SanitizeFrom(rest, false)) == s + SanitizeFrom(rest, false);
    }
  }

  /**
   Every stretch of invalid bytes, however long, is displayed as one U+FFFD, and everything around it as it is: the
   text up to the stretch, and then, whatever it holds, the rest that begins with a code point or is empty.
   */
  lemma InvalidStretchIsOneReplacement(s: string, bad: Bytes, rest: Bytes)
    requires bad != [] && Invalid(bad, rest) && (rest == [] || DecodeRune(rest).Some?)
    ensures Sanitize(EncodeAll(s) + bad + rest) == s + [REPLACEMENT] + Sanitize(rest)
  {
    assert EncodeAll(s) + bad + rest == EncodeAll(s) + (bad + rest);
    ValidThenRest(s, bad + rest, false);
    InvalidRun(bad, rest, false);
  }

  /** Valid UTF-8 is displayed unchanged. */
  lemma {:induction false} SanitizeKeepsValid(s: string, afterInvalid: bool)
    ensures SanitizeFrom(EncodeAll(s), afterInvalid) == s
  {
    if s != [] {
      DecodeEncoded(s[0], EncodeAll(s[1..]));
      SanitizeKeepsValid(s[1..], false);
      assert (Encode(s[0]) + EncodeAll(s[1..]))[|Encode(s[0])|..] == EncodeAll(s[1..]);
    }
  }

  lemma {:induction false} ByteLenConcat(s: string, t: string)
    ensures ByteLen(s + t) == ByteLen(s) + ByteLen(t)
  {
    if s == [] {
      assert s + t == t;
    } else {
      ByteLenConcat(s[1..], t);
      assert (s + t)[1..] == s[1..] + t;
    }
  }

  lemma {:induction false} ByteLenBound(s: string)
    ensures |s| <= ByteLen(s) <= 4 * |s|
  {
    if s != [] {
      ByteLenBound(s[1..]);
    }
  }

  lemma {:induction false} ByteLenAscii(s: string)
    requires forall i :: 0 <= i < |s| ==> s[i] as int < 0x80
    ensures ByteLen(s) == |s|
  {
    if s != [] {
      ByteLenAscii(s[1..]);
    }
  }
}
