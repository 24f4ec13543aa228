/**
 * The string operations of the JavaScript runtime that the records and handlers rely on:
 * `String.prototype.trim`, `toLowerCase` (on ASCII letters), hexadecimal encoding of bytes as
 * done by `Buffer.toString("hex")`, and the ObjectId format (24 hexadecimal digits).
 */
module Text {
  import opened Wrappers

  newtype byte = x: int | 0 <= x < 256

  /** The characters `String.prototype.trim` removes (ECMAScript WhiteSpace and LineTerminator). */
  predicate IsJsWhitespace(c: char)
  {
    || c == '\t' || c == '\n' || c == '\U{B}' || c == '\U{C}' || c == '\r' || c == ' '
    || c == '\U{A0}' || c == '\U{1680}' || ('\U{2000}' <= c <= '\U{200A}')
    || c == '\U{2028}' || c == '\U{2029}' || c == '\U{202F}' || c == '\U{205F}'
    || c == '\U{3000}' || c == '\U{FEFF}'
  }

  /** Number of whitespace characters at the start of `s`. */
  function LeadingWs(s: string): (n: nat)
    ensures n <= |s|
    ensures n < |s| ==> !IsJsWhitespace(s[n])
  {
    if |s| == 0 || !IsJsWhitespace(s[0]) then 0 else 1 + LeadingWs(s[1..])
  }

  /** What `LeadingWs` counts is whitespace. */
  lemma {:induction false} LeadingWsAreWhitespace(s: string)
    ensures forall i :: 0 <= i < LeadingWs(s) ==> IsJsWhitespace(s[i])
  {
    if |s| > 0 && IsJsWhitespace(s[0]) {
      LeadingWsAreWhitespace(s[1..]);
      assert forall i :: 1 <= i < LeadingWs(s) ==> s[i] == s[1..][i - 1];
    }
  }

  /** Number of whitespace characters at the end of `s`. */
  function TrailingWs(s: string): (n: nat)
    ensures n <= |s|
    ensures n < |s| ==> !IsJsWhitespace(s[|s| - 1 - n])
  {
    if |s| == 0 || !IsJsWhitespace(s[|s| - 1]) then 0 else 1 + TrailingWs(s[..|s| - 1])
  }

  /** What `TrailingWs` counts is whitespace. */
  lemma {:induction false} TrailingWsAreWhitespace(s: string)
    ensures forall i :: |s| - TrailingWs(s) <= i < |s| ==> IsJsWhitespace(s[i])
  {
    if |s| > 0 && IsJsWhitespace(s[|s| - 1]) {
      TrailingWsAreWhitespace(s[..|s| - 1]);
    }
  }

  /** True when `s` neither starts nor ends with whitespace. */
  predicate IsTrimmed(s: string)
  {
    s == [] || (!IsJsWhitespace(s[0]) && !IsJsWhitespace(s[|s| - 1]))
  }

  /** `s.trim()`: the infix of `s` left after removing leading and trailing whitespace. */
  function Trim(s: string): (r: string)
    ensures IsTrimmed(r)
    ensures LeadingWs(s) + |r| <= |s|
    ensures r == s[LeadingWs(s)..LeadingWs(s) + |r|]
    ensures forall i :: LeadingWs(s) + |r| <= i < |s| ==> IsJsWhitespace(s[i])
  {
    var t := s[LeadingWs(s)..];
    TrailingWsAreWhitespace(t);
    t[..|t| - TrailingWs(t)]
  }

  /** A string with no whitespace at either end is its own trim. */
  lemma TrimOfTrimmed(s: string)
    requires IsTrimmed(s)
    ensures Trim(s) == s
  {
    assert LeadingWs(s) == 0;
    assert TrailingWs(s) == 0;
  }

  /** Trimming is idempotent. */
  lemma TrimIdempotent(s: string)
    ensures Trim(Trim(s)) == Trim(s)
  {
    TrimOfTrimmed(Trim(s));
  }

  /** `toLowerCase` restricted to ASCII letters. */
  function LowerChar(c: char): char
  {
    if 'A' <= c <= 'Z' then (c as int + 32) as char else c
  }

  function Lower(s: string): (r: string)
    ensures |r| == |s|
    ensures forall i :: 0 <= i < |s| ==> r[i] == LowerChar(s[i])
  {
    seq(|s|, i requires 0 <= i < |s| => LowerChar(s[i]))
  }

  /** No ASCII upper-case letter anywhere in `s`. */
  predicate IsLowerCase(s: string)
    decreases |s|
  {
    |s| == 0 || (!('A' <= s[0] <= 'Z') && IsLowerCase(s[1..]))
  }

  /** The strings with no upper-case letter are exactly those that lowercasing leaves alone. */
  lemma {:induction false} LowerCaseIsFixed(s: string)
    ensures IsLowerCase(s) <==> Lower(s) == s
  {
    if |s| > 0 {
      assert Lower(s) == [LowerChar(s[0])] + Lower(s[1..]);
      LowerCaseIsFixed(s[1..]);
      if Lower(s) == s {
        assert Lower(s)[1..] == s[1..];
      }
    }
  }

  /** Lowercasing works character by character, so it commutes with slicing. */
  lemma LowerSlice(s: string, i: nat, j: nat)
    requires i <= j <= |s|
    ensures Lower(s)[i..j] == Lower(s[i..j])
  {
  }

  /** `Trim` as the two slices it takes. */
  lemma TrimSlices(s: string)
    ensures Trim(s) == s[LeadingWs(s)..][..|s| - LeadingWs(s) - TrailingWs(s[LeadingWs(s)..])]
  {
  }

  lemma LowerDrop(s: string, n: nat)
    requires n <= |s|
    ensures Lower(s)[n..] == Lower(s[n..])
  {
    LowerSlice(s, n, |s|);
    assert s[n..|s|] == s[n..];
  }

  /** Trimming a lowercased string takes the same slices as trimming the original. */
  lemma TrimOfLower(s: string)
    ensures var n := LeadingWs(s); var t := s[n..];
            Trim(Lower(s)) == Lower(t)[..|t| - TrailingWs(t)]
  {
    var n := LeadingWs(s);
    var t := s[n..];
    LowerLeading(s);
    LowerDrop(s, n);
    LowerTrailing(t);
    TrimSlices(Lower(s));
  }

  /** Lowercasing a trimmed string lowercases the same slices. */
  lemma LowerOfTrim(s: string)
    ensures var n := LeadingWs(s); var t := s[n..];
            Lower(Trim(s)) == Lower(t)[..|t| - TrailingWs(t)]
  {
    var t := s[LeadingWs(s)..];
    var k := |t| - TrailingWs(t);
    TrimSlices(s);
    LowerSlice(t, 0, k);
    assert t[..k] == t[0..k];
  }

  /** Lowercasing leaves whitespace where it is, so it commutes with trimming. */
  lemma LowerTrimCommute(s: string)
    ensures Lower(Trim(s)) == Trim(Lower(s))
  {
    TrimOfLower(s);
    LowerOfTrim(s);
  }

  lemma {:induction false} LowerLeading(s: string)
    ensures LeadingWs(Lower(s)) == LeadingWs(s)
  {
    if |s| > 0 && IsJsWhitespace(s[0]) {
      assert Lower(s)[1..] == Lower(s[1..]);
      LowerLeading(s[1..]);
    }
  }

  lemma {:induction false} LowerTrailing(s: string)
    ensures TrailingWs(Lower(s)) == TrailingWs(s)
  {
    if |s| > 0 && IsJsWhitespace(s[|s| - 1]) {
      assert Lower(s)[..|s| - 1] == Lower(s[..|s| - 1]);
      LowerTrailing(s[..|s| - 1]);
    }
  }

  predicate IsHexDigit(c: char)
  {
    ('0' <= c <= '9') || ('a' <= c <= 'f') || ('A' <= c <= 'F')
  }

  predicate IsLowerHexDigit(c: char)
  {
    ('0' <= c <= '9') || ('a' <= c <= 'f')
  }

  function HexDigit(n: int): (c: char)
    requires 0 <= n < 16
    ensures IsLowerHexDigit(c)
  {
    "0123456789abcdef"[n]
  }

  function HexValue(c: char): (n: int)
    requires IsHexDigit(c)
    ensures 0 <= n < 16
  {
    if '0' <= c <= '9' then c as int - '0' as int
    else if 'a' <= c <= 'f' then c as int - 'a' as int + 10
    else c as int - 'A' as int + 10
  }

  lemma HexValueOfDigit(n: int)
    requires 0 <= n < 16
    ensures HexValue(HexDigit(n)) == n
  {
  }

  /** `buf.toString("hex")`: two lowercase hexadecimal digits per byte, high nibble first. */
  function HexEncode(b: seq<byte>): (r: string)
    ensures |r| == 2 * |b|
    ensures forall i :: 0 <= i < |r| ==> IsLowerHexDigit(r[i])
  {
    if b == [] then ""
    else [HexDigit(b[0] as int / 16), HexDigit(b[0] as int % 16)] + HexEncode(b[1..])
  }

  /** The inverse of `HexEncode`: None unless `s` is an even number of hexadecimal digits. */
  function HexDecode(s: string): (r: Option<seq<byte>>)
    ensures r.Some? ==> 2 * |r.value| == |s|
  {
    if s == [] then Some([])
    else if |s| == 1 || !IsHexDigit(s[0]) || !IsHexDigit(s[1]) then None
    else
      match HexDecode(s[2..])
      case None => None
      case Some(rest) => Some([(HexValue(s[0]) * 16 + HexValue(s[1])) as byte] + rest)
  }

  /** A byte is its high nibble times 16 plus its low nibble. */
  lemma Nibbles(x: byte)
    ensures 0 <= x as int / 16 < 16 && 0 <= x as int % 16 < 16
    ensures (x as int / 16 * 16 + x as int % 16) as byte == x
  {
  }

  /** Decoding two digits in front of a hex text. */
  lemma DecodeDigits(hi: int, lo: int, rest: string)
    requires 0 <= hi < 16 && 0 <= lo < 16
    ensures HexDecode([HexDigit(hi), HexDigit(lo)] + rest) ==
              match HexDecode(rest)
              case None => None
              case Some(r) => Some([(hi * 16 + lo) as byte] + r)
  {
    var s := [HexDigit(hi), HexDigit(lo)] + rest;
    HexValueOfDigit(hi);
    HexValueOfDigit(lo);
    assert s[2..] == rest;
  }

  lemma {:induction false} HexRoundTrip(b: seq<byte>)
    ensures HexDecode(HexEncode(b)) == Some(b)
  {
    if b != [] {
      var hi, lo := b[0] as int / 16, b[0] as int % 16;
      Nibbles(b[0]);
      assert HexEncode(b) == [HexDigit(hi), HexDigit(lo)] + HexEncode(b[1..]);
      DecodeDigits(hi, lo, HexEncode(b[1..]));
      HexRoundTrip(b[1..]);
      assert [b[0]] + b[1..] == b;
    }
  }

  /** The route-level id check `/^[0-9a-fA-F]{24}$/`. */
  predicate IsHex24(s: string)
  {
    |s| == 24 && forall i :: 0 <= i < |s| ==> IsHexDigit(s[i])
  }

  /** The canonical (lowercase) text of an ObjectId, as `_id.toString()` prints it. */
  predicate IsObjectIdText(s: string)
  {
    |s| == 24 && forall i :: 0 <= i < |s| ==> IsLowerHexDigit(s[i])
  }

  /**
   * Casting a string to an ObjectId, as Mongoose does for `_id` lookups: 24 hexadecimal digits
   * in either case give the id (printed in lowercase); anything else is a CastError.
   */
  function CastObjectId(s: string): (r: Option<string>)
    ensures r.Some? <==> IsHex24(s)
    ensures r.Some? ==> IsObjectIdText(r.value) && r.value == Lower(s)
  {
    if IsHex24(s) then Some(Lower(s)) else None
  }

  /** A canonical id casts to itself. */
  lemma CastCanonical(s: string)
    requires IsObjectIdText(s)
    ensures CastObjectId(s) == Some(s)
  {
    assert Lower(s) == s;
  }
}
