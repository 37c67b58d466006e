/**
 * The hex-to-text decoding used for a document's title (`web3.toAscii`).
 *
 * web3's own decoder is not part of this model. The decoder below is an
 * assumption about it: an optional lower-case "0x" prefix is skipped, the
 * rest is read two characters at a time, and each chunk becomes the one
 * character whose code the chunk's hex digits spell. Zero bytes are kept,
 * at the end as anywhere else. A chunk holding a character that is not a
 * hex digit decodes to code 0. The lemmas below are about lower-case hex,
 * as ToHex writes it, and claim nothing about other input.
 */
module Hex {
  import opened Wrappers

  /** The value of a hex digit in either case, or None for any other character. */
  function DigitValue(c: char): (r: Option<nat>)
    ensures r.Some? ==> r.value < 16
  {
    if '0' <= c <= '9' then Some(c as int - '0' as int)
    else if 'a' <= c <= 'f' then Some(c as int - 'a' as int + 10)
    else if 'A' <= c <= 'F' then Some(c as int - 'A' as int + 10)
    else None
  }

  /** The lower-case hex digit of value `d`; DigitValue reads it back. */
  function Digit(d: nat): (c: char)
    requires d < 16
    ensures DigitValue(c) == Some(d)
    ensures c != 'x'
  {
    if d < 10 then ('0' as int + d) as char else ('a' as int + d - 10) as char
  }

  /** The character code spelled by a chunk of one or two characters. */
  function ChunkCode(chunk: string): (n: nat)
    requires 1 <= |chunk| <= 2
    ensures n < 256
    ensures |chunk| == 1 ==> n < 16
  {
    if |chunk| == 1 then
      match DigitValue(chunk[0])
      case Some(d) => d
      case None => 0
    else
      match (DigitValue(chunk[0]), DigitValue(chunk[1]))
      case (Some(hi), Some(lo)) => hi * 16 + lo
      case _ => 0
  }

  /** Decodes a prefix-free hex text, one character per chunk of two (the last chunk may be one). */
  function DecodeChunks(h: string): (s: string)
    ensures |s| == (|h| + 1) / 2
    decreases |h|
  {
    if |h| == 0 then []
    else if |h| == 1 then [ChunkCode(h) as char]
    else [ChunkCode(h[..2]) as char] + DecodeChunks(h[2..])
  }

  predicate HasPrefix(h: string)
  {
    |h| >= 2 && h[0] == '0' && h[1] == 'x'
  }

  /** The text after the optional "0x" prefix. */
  function Payload(h: string): (p: string)
    ensures HasPrefix(h) ==> h == "0x" + p
    ensures !HasPrefix(h) ==> p == h
  {
    if HasPrefix(h) then h[2..] else h
  }

  /** The assumed `web3.toAscii`. */
  function ToAscii(h: string): (s: string)
    ensures |s| == (|Payload(h)| + 1) / 2
  {
    DecodeChunks(Payload(h))
  }

  /** Every character fits in one byte: the texts that have a hex encoding. */
  predicate IsBytes(s: string)
  {
    forall i :: 0 <= i < |s| ==> s[i] as int < 256
  }

  /** Two lower-case hex digits per character, no prefix. */
  function HexDigits(s: string): (h: string)
    requires IsBytes(s)
    ensures |h| == 2 * |s|
  {
    if s == [] then []
    else
      var code := s[0] as int;
      [Digit(code / 16), Digit(code % 16)] + HexDigits(s[1..])
  }

  /** The "0x"-prefixed hex encoding of a byte text, as a contract stores a document name. */
  function ToHex(s: string): (h: string)
    requires IsBytes(s)
    ensures HasPrefix(h) && |h| == 2 + 2 * |s|
  {
    "0x" + HexDigits(s)
  }

  /** A chunk of two hex digits decodes to the code they spell. */
  lemma ChunkOfDigits(hi: nat, lo: nat)
    requires hi < 16 && lo < 16
    ensures ChunkCode([Digit(hi), Digit(lo)]) == hi * 16 + lo
  {
  }

  lemma {:induction false} DecodeHexDigits(s: string)
    requires IsBytes(s)
    ensures DecodeChunks(HexDigits(s)) == s
  {
    if s != [] {
      var code := s[0] as int;
      var h := HexDigits(s);
      assert h == [Digit(code / 16), Digit(code % 16)] + HexDigits(s[1..]);
      assert h[..2] == [Digit(code / 16), Digit(code % 16)];
      assert h[2..] == HexDigits(s[1..]);
      ChunkOfDigits(code / 16, code % 16);
      assert IsBytes(s[1..]);
      DecodeHexDigits(s[1..]);
      assert s == [s[0]] + s[1..];
    }
  }

  /** Decoding undoes encoding: a document name stored as hex reads back as its text. */
  lemma RoundTrip(s: string)
    requires IsBytes(s)
    ensures ToAscii(ToHex(s)) == s
  {
    assert Payload(ToHex(s)) == HexDigits(s);
    DecodeHexDigits(s);
  }

  /** The "0x" prefix is optional: the bare hex digits decode to the same text. */
  lemma PrefixOptional(s: string)
    requires IsBytes(s)
    ensures ToAscii(HexDigits(s)) == ToAscii(ToHex(s)) == s
  {
  }

  /** Decoding works chunk by chunk: an even-length head decodes on its own. */
  lemma {:induction false} DecodeAppend(a: string, b: string)
    requires |a| % 2 == 0
    ensures DecodeChunks(a + b) == DecodeChunks(a) + DecodeChunks(b)
    decreases |a|
  {
    if |a| > 0 {
      var ab := a + b;
      assert ab[..2] == a[..2];
      assert ab[2..] == a[2..] + b;
      DecodeAppend(a[2..], b);
    } else {
      assert a + b == b;
    }
  }

  /** Trailing zero bytes are not stripped: a final "00" decodes to a final NUL character. */
  lemma TrailingZeroKept(h: string)
    requires |h| % 2 == 0
    ensures ToAscii(h + "00") == ToAscii(h) + ['\0']
  {
    if HasPrefix(h) {
      assert HasPrefix(h + "00");
      assert Payload(h + "00") == Payload(h) + "00";
    } else {
      assert !HasPrefix(h + "00") by {
        if |h| == 0 { assert h + "00" == "00"; }
        else { assert (h + "00")[..2] == h[..2]; }
      }
    }
    DecodeAppend(Payload(h), "00");
    assert DigitValue('0') == Some(0);
    assert DecodeChunks("00") == ['\0'];
  }
}
