/**
 * Rendering of a transaction hash as `"0x"` followed by lowercase hexadecimal
 * (two digits per byte, high nibble first), and the `starts_with` test that
 * compares the rendering with the target prefix (src/main.rs:155-156).
 * DecodeHex is the inverse of the rendering, used to show that the rendering
 * loses nothing.
 */
module Hex {
  import opened Wrappers
  import opened Uint

  const DIGITS: string := "0123456789abcdef"

  /** The characters the rendering can produce. */
  predicate IsLowerHex(c: char) {
    ('0' <= c <= '9') || ('a' <= c <= 'f')
  }

  /** The lowercase digit for a nibble. */
  function HexDigit(n: nat): (c: char)
    requires n < 16
    ensures IsLowerHex(c)
    ensures n < 10 ==> c as int == '0' as int + n
    ensures 10 <= n ==> c as int == 'a' as int + (n - 10)
  {
    DIGITS[n]
  }

  /** The nibble a lowercase hex digit stands for; None for any other character. */
  function DigitValue(c: char): (r: Option<nat>)
    ensures r.Some? <==> IsLowerHex(c)
    ensures r.Some? ==> r.value < 16 && HexDigit(r.value) == c
  {
    if '0' <= c <= '9' then Some(c as int - '0' as int)
    else if 'a' <= c <= 'f' then Some(c as int - 'a' as int + 10)
    else None
  }

  /** `hex::encode`: two lowercase digits per byte, high nibble first. */
  function EncodeHex(bs: seq<Byte>): (s: string)
    ensures |s| == 2 * |bs|
  {
    if bs == [] then "" else [HexDigit(bs[0] / 16), HexDigit(bs[0] % 16)] + EncodeHex(bs[1..])
  }

  /** Byte k of the input becomes characters 2k (high nibble) and 2k+1 (low nibble). */
  lemma {:induction false} EncodeHexAt(bs: seq<Byte>, k: nat)
    requires k < |bs|
    ensures EncodeHex(bs)[2 * k] == HexDigit(bs[k] / 16)
    ensures EncodeHex(bs)[2 * k + 1] == HexDigit(bs[k] % 16)
  {
    if k > 0 {
      EncodeHexAt(bs[1..], k - 1);
    }
  }

  /** Every character of the encoding is a lowercase hex digit. */
  lemma EncodeHexIsLowerHex(bs: seq<Byte>, i: nat)
    requires i < |EncodeHex(bs)|
    ensures IsLowerHex(EncodeHex(bs)[i])
  {
    EncodeHexAt(bs, i / 2);
  }

  /** The inverse of EncodeHex: None for odd length or a non-digit character. */
  function DecodeHex(s: string): (r: Option<seq<Byte>>)
    ensures r.Some? ==> 2 * |r.value| == |s|
  {
    if s == [] then Some([])
    else if |s| == 1 then None
    else
      var hi, lo, rest := DigitValue(s[0]), DigitValue(s[1]), DecodeHex(s[2..]);
      if hi.Some? && lo.Some? && rest.Some? then Some([hi.value * 16 + lo.value] + rest.value) else None
  }

  /** Reading back a digit gives the nibble it was written for. */
  lemma DigitValueOfHexDigit(n: nat)
    requires n < 16
    ensures DigitValue(HexDigit(n)) == Some(n)
  {
  }

  /** Decoding the rendering gives back the bytes. */
  lemma {:induction false} DecodeEncodeHex(bs: seq<Byte>)
    ensures DecodeHex(EncodeHex(bs)) == Some(bs)
  {
    if bs != [] {
      var s := EncodeHex(bs);
      var hi, lo := bs[0] / 16, bs[0] % 16;
      assert s == [HexDigit(hi), HexDigit(lo)] + EncodeHex(bs[1..]);
      assert s[2..] == EncodeHex(bs[1..]);
      DigitValueOfHexDigit(hi);
      DigitValueOfHexDigit(lo);
      DecodeEncodeHex(bs[1..]);
      assert DecodeHex(s) == Some([hi * 16 + lo] + bs[1..]);
      assert [hi * 16 + lo] + bs[1..] == bs;
    }
  }

  /** Distinct byte strings render differently. */
  lemma EncodeHexInjective(a: seq<Byte>, b: seq<Byte>)
    requires EncodeHex(a) == EncodeHex(b)
    ensures a == b
  {
    DecodeEncodeHex(a);
    DecodeEncodeHex(b);
  }

  /** `format!("0x{}", hex::encode(tx_hash))` (src/main.rs:155). */
  function RenderHash(h: Hash32): (s: string)
    ensures |s| == 66
    ensures s[0] == '0' && s[1] == 'x'
    ensures s[2..] == EncodeHex(h)
  {
    "0x" + EncodeHex(h)
  }

  /** The rendering is the marker then exactly 64 lowercase digits, byte k at 2+2k (high) and 3+2k (low). */
  lemma RenderHashShape(h: Hash32)
    ensures forall i :: 2 <= i < 66 ==> IsLowerHex(RenderHash(h)[i])
    ensures forall k :: 0 <= k < 32 ==>
      RenderHash(h)[2 + 2 * k] == HexDigit(h[k] / 16) && RenderHash(h)[3 + 2 * k] == HexDigit(h[k] % 16)
  {
    var s := RenderHash(h);
    forall i | 2 <= i < 66
      ensures IsLowerHex(s[i])
    {
      assert s[i] == EncodeHex(h)[i - 2];
      EncodeHexIsLowerHex(h, i - 2);
    }
    forall k | 0 <= k < 32
      ensures s[2 + 2 * k] == HexDigit(h[k] / 16) && s[3 + 2 * k] == HexDigit(h[k] % 16)
    {
      EncodeHexAt(h, k);
      assert s[2 + 2 * k] == EncodeHex(h)[2 * k];
      assert s[3 + 2 * k] == EncodeHex(h)[2 * k + 1];
    }
  }

  /** The rendering determines the hash. */
  lemma RenderHashRoundTrip(h: Hash32)
    ensures DecodeHex(RenderHash(h)[2..]) == Some(h)
  {
    DecodeEncodeHex(h);
  }

  /** `str::starts_with`: the prefix is no longer than s and agrees with its head. */
  predicate StartsWith(s: string, prefix: string)
    ensures StartsWith(s, prefix) <==> |prefix| <= |s| && s == prefix + s[|prefix|..]
  {
    |prefix| <= |s| && s[..|prefix|] == prefix
  }

  /** The empty prefix matches every rendering. */
  lemma EmptyPrefixMatches(h: Hash32)
    ensures StartsWith(RenderHash(h), "")
  {
  }

  /** A prefix that does not begin with the "0x" marker matches only when it is "" or "0". */
  lemma PrefixWithoutMarker(h: Hash32, p: string)
    requires !(|p| >= 2 && p[..2] == "0x")
    ensures StartsWith(RenderHash(h), p) <==> (p == "" || p == "0")
  {
    var s := RenderHash(h);
    if p == "0" {
      assert s[..1] == "0";
    }
  }

  /** A prefix "0x" + q matches exactly when q is a prefix of the 64 hex digits. */
  lemma MarkedPrefix(h: Hash32, q: string)
    ensures StartsWith(RenderHash(h), "0x" + q) <==> StartsWith(EncodeHex(h), q)
  {
    var s := RenderHash(h);
    var p := "0x" + q;
    if StartsWith(s, p) {
      assert s[2..][..|q|] == s[..|p|][2..] == q;
    }
    if StartsWith(EncodeHex(h), q) {
      assert s[..|p|] == "0x" + s[2..][..|q|];
    }
  }

  /** A prefix longer than 66 characters, or holding a non-digit after the marker, never matches. */
  lemma UnmatchablePrefix(h: Hash32, p: string)
    requires |p| > 66 || exists i :: 2 <= i < |p| && !IsLowerHex(p[i])
    ensures !StartsWith(RenderHash(h), p)
  {
    RenderHashShape(h);
  }
}
