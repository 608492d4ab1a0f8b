/** Text handling of private and public keys shared by the key-pair and login
    pages: `String.prototype.trim`, the `/^[0-9a-fA-F]{64}$/` check, the
    `toHex` encoder of KeyPair.tsx and the hex decoding of `Buffer.from(s, 'hex')`. */
module KeyFormat {

  newtype byte = x: int | 0 <= x < 256

  /** The error both pages show for input that fails the hex check. */
  const KeyFormatError := "Private key must be 64 hex characters"

  // ---------------------------------------------------------------------------
  // trim

  /** The characters `String.prototype.trim` removes: ECMAScript WhiteSpace
      and LineTerminator. */
  predicate IsJsWhitespace(c: char)
  {
    c == '\t' || c == '\n' || c == '\U{000B}' || c == '\U{000C}' || c == '\r' || c == ' '
    || c == '\U{00A0}' || c == '\U{1680}' || ('\U{2000}' <= c <= '\U{200A}')
    || c == '\U{2028}' || c == '\U{2029}' || c == '\U{202F}' || c == '\U{205F}'
    || c == '\U{3000}' || c == '\U{FEFF}'
  }

  /** `s` without its leading whitespace: a suffix of `s` that does not start
      with whitespace, everything dropped being whitespace. */
  function TrimStart(s: string): (r: string)
    ensures |r| <= |s| && r == s[|s| - |r|..]
    ensures r == [] || !IsJsWhitespace(r[0])
    ensures forall k :: 0 <= k < |s| - |r| ==> IsJsWhitespace(s[k])
  {
    if s != [] && IsJsWhitespace(s[0]) then TrimStart(s[1..]) else s
  }

  /** `s` without its trailing whitespace: a prefix of `s` that does not end
      with whitespace, everything dropped being whitespace. */
  function TrimEnd(s: string): (r: string)
    ensures |r| <= |s| && r == s[..|r|]
    ensures r == [] || !IsJsWhitespace(r[|r| - 1])
    ensures forall k :: |r| <= k < |s| ==> IsJsWhitespace(s[k])
  {
    if s != [] && IsJsWhitespace(s[|s| - 1]) then TrimEnd(s[..|s| - 1]) else s
  }

  /** `s.trim()`: the slice of `s` left after dropping whitespace at both
      ends; it neither starts nor ends with whitespace. */
  function Trim(s: string): (r: string)
    ensures var i := |s| - |TrimStart(s)|;
      && i + |r| <= |s| && r == s[i..i + |r|]
      && (forall k :: 0 <= k < i ==> IsJsWhitespace(s[k]))
      && (forall k :: i + |r| <= k < |s| ==> IsJsWhitespace(s[k]))
      && (r == [] || (!IsJsWhitespace(r[0]) && !IsJsWhitespace(r[|r| - 1])))
  {
    var t := TrimStart(s);
    var r := TrimEnd(t);
    PrefixOfSuffix(s, t, r);
    r
  }

  /** A prefix `r` of a suffix `t` of `s` is a slice of `s`, and the part of
      `s` after it is the part of `t` after it. */
  lemma PrefixOfSuffix(s: string, t: string, r: string)
    requires |t| <= |s| && t == s[|s| - |t|..]
    requires |r| <= |t| && r == t[..|r|]
    ensures var i := |s| - |t|;
      && r == s[i..i + |r|]
      && (forall k :: i + |r| <= k < |s| ==> s[k] == t[k - i])
      && (r != [] ==> r[0] == t[0])
  {
  }

  /** Trimming twice is trimming once. */
  lemma {:induction false} TrimIdempotent(s: string)
    ensures Trim(Trim(s)) == Trim(s)
  {
    var r := Trim(s);
    TrimStartOfClean(r);
    TrimEndOfClean(r);
  }

  lemma TrimStartOfClean(s: string)
    requires s == [] || !IsJsWhitespace(s[0])
    ensures TrimStart(s) == s
  {
  }

  lemma TrimEndOfClean(s: string)
    requires s == [] || !IsJsWhitespace(s[|s| - 1])
    ensures TrimEnd(s) == s
  {
  }

  // ---------------------------------------------------------------------------
  // the 64-hex-character check

  /** A character of the class `[0-9a-fA-F]`. */
  predicate IsHexChar(c: char)
  {
    ('0' <= c <= '9') || ('a' <= c <= 'f') || ('A' <= c <= 'F')
  }

  /** A character `toHex` can emit: `[0-9a-f]`. */
  predicate IsLowerHexChar(c: char)
  {
    ('0' <= c <= '9') || ('a' <= c <= 'f')
  }

  /** `/^[0-9a-fA-F]{64}$/.test(s)`: exactly 64 characters, each a hex digit
      of either case. */
  predicate IsHexKey(s: string): (r: bool)
    ensures r ==> IsHexText(s) && |FromHex(s)| == 32
  {
    |s| == 64 && forall i :: 0 <= i < |s| ==> IsHexChar(s[i])
  }

  /** Input that passes the check after trimming has no surrounding
      whitespace at all: the check is the same as on the untrimmed text
      whenever that text already passes. */
  lemma {:induction false} HexKeyTrimsToItself(s: string)
    requires IsHexKey(s)
    ensures Trim(s) == s
  {
    assert !IsJsWhitespace(s[0]) && !IsJsWhitespace(s[|s| - 1]) by {
      assert IsHexChar(s[0]) && IsHexChar(s[|s| - 1]);
    }
    TrimStartOfClean(s);
    TrimEndOfClean(s);
  }

  // ---------------------------------------------------------------------------
  // toHex: bytes -> lower-case hex, two characters per byte

  /** The lower-case digit for a value below 16. */
  function Digit(n: nat): (c: char)
    requires n < 16
    ensures IsLowerHexChar(c)
  {
    if n < 10 then ('0' as int + n) as char else ('a' as int + n - 10) as char
  }

  /** `n.toString(16)`: the base-16 numeral of `n` in lower case, with no
      leading zeros ("0" for zero). */
  function ToBase16(n: nat): (r: string)
    ensures |r| >= 1
    ensures forall i :: 0 <= i < |r| ==> IsLowerHexChar(r[i])
  {
    if n < 16 then [Digit(n)] else ToBase16(n / 16) + [Digit(n % 16)]
  }

  /** `s.padStart(width, [fill])`. */
  function PadStart(s: string, width: nat, fill: char): string
  {
    if |s| >= width then s else seq(width - |s|, _ => fill) + s
  }

  /** Padding never shortens: the result is `width` long or `s` itself, ends
      with `s`, and everything before `s` is `fill`. */
  lemma PadStartPads(s: string, width: nat, fill: char)
    ensures var r := PadStart(s, width, fill);
      && |r| == (if |s| >= width then |s| else width)
      && r[|r| - |s|..] == s
      && (forall i :: 0 <= i < |r| - |s| ==> r[i] == fill)
  {
  }

  /** `b.toString(16).padStart(2, '0')`: exactly the two base-16 digits of the
      byte, so a byte below 16 gets a leading `0`. */
  function ByteToHex(b: byte): (r: string)
    ensures r == [Digit(b as int / 16), Digit(b as int % 16)]
    ensures b < 16 ==> r[0] == '0'
  {
    var digits := ToBase16(b as int);
    assert b >= 16 ==> ToBase16(b as int / 16) == [Digit(b as int / 16)];
    assert digits == if b < 16 then [Digit(b as int)] else [Digit(b as int / 16), Digit(b as int % 16)];
    assert b < 16 ==> PadStart(digits, 2, '0') == ['0'] + digits;
    PadStart(digits, 2, '0')
  }

  /** `toHex(bytes)`: the bytes' two-digit numerals joined in order. */
  function ToHex(bytes: seq<byte>): (r: string)
    ensures |r| == 2 * |bytes|
    ensures forall i :: 0 <= i < |r| ==> IsLowerHexChar(r[i])
  {
    if bytes == [] then "" else ByteToHex(bytes[0]) + ToHex(bytes[1..])
  }

  /** The characters at `2k` and `2k + 1` of `toHex(bytes)` are the two
      digits of `bytes[k]`. */
  lemma {:induction false} ToHexPairAt(bytes: seq<byte>, k: nat)
    requires k < |bytes|
    ensures ToHex(bytes)[2 * k] == Digit(bytes[k] as int / 16)
    ensures ToHex(bytes)[2 * k + 1] == Digit(bytes[k] as int % 16)
  {
    assert ToHex(bytes) == ByteToHex(bytes[0]) + ToHex(bytes[1..]);
    if k > 0 {
      ToHexPairAt(bytes[1..], k - 1);
    }
  }

  // ---------------------------------------------------------------------------
  // reading hex back: parseInt(pair, 16) and Buffer.from(s, 'hex')

  /** The value of one hex digit of either case. */
  function HexValue(c: char): (v: nat)
    requires IsHexChar(c)
    ensures v < 16
  {
    if '0' <= c <= '9' then c as int - '0' as int
    else if 'a' <= c <= 'f' then c as int - 'a' as int + 10
    else c as int - 'A' as int + 10
  }

  /** Every digit `toHex` writes reads back as the value it encodes. */
  lemma DigitValue(n: nat)
    requires n < 16
    ensures IsHexChar(Digit(n)) && HexValue(Digit(n)) == n
  {
  }

  /** A string of hex digits of even length. */
  predicate IsHexText(s: string)
  {
    |s| % 2 == 0 && forall i :: 0 <= i < |s| ==> IsHexChar(s[i])
  }

  /** Read a two-character chunk as a base-16 byte. */
  function PairValue(hi: char, lo: char): (b: byte)
    requires IsHexChar(hi) && IsHexChar(lo)
  {
    (HexValue(hi) * 16 + HexValue(lo)) as byte
  }

  /** `Buffer.from(s, 'hex')` on text that is all hex digits of even length:
      each two-character chunk read as one byte. */
  function FromHex(s: string): (r: seq<byte>)
    requires IsHexText(s)
    ensures |r| == |s| / 2
  {
    if s == "" then [] else [PairValue(s[0], s[1])] + FromHex(s[2..])
  }

  /** Reading each two-character chunk of `toHex(bytes)` as base 16 gives the
      original bytes back. */
  lemma {:induction false} ToHexRoundTrip(bytes: seq<byte>)
    ensures IsHexText(ToHex(bytes))
    ensures FromHex(ToHex(bytes)) == bytes
  {
    if bytes != [] {
      var b := bytes[0];
      ToHexRoundTrip(bytes[1..]);
      var h := ToHex(bytes);
      assert h == ByteToHex(b) + ToHex(bytes[1..]);
      assert h[2..] == ToHex(bytes[1..]);
      DigitValue(b as int / 16);
      DigitValue(b as int % 16);
      assert PairValue(h[0], h[1]) == b;
    }
  }

  /** A 32-byte key encodes to text that passes the 64-hex-character check,
      so a generated private key can be imported again. */
  lemma KeyBytesPassCheck(bytes: seq<byte>)
    requires |bytes| == 32
    ensures IsHexKey(ToHex(bytes))
    ensures Trim(ToHex(bytes)) == ToHex(bytes)
  {
    ToHexRoundTrip(bytes);
    HexKeyTrimsToItself(ToHex(bytes));
  }

  /** An ASCII character in lower case: `A`-`Z` become `a`-`z`. */
  function LowerAscii(c: char): char
  {
    if 'A' <= c <= 'Z' then (c as int - 'A' as int + 'a' as int) as char else c
  }

  /** ASCII text in lower case: the form in which `FromHexToHex` states
      what re-encoding decoded hex text gives. */
  function LowerCase(s: string): string
  {
    seq(|s|, i requires 0 <= i < |s| => LowerAscii(s[i]))
  }

  /** A byte below 256 written as `16 * hi + lo` has the digits `hi`, `lo`. */
  lemma DivModDigits(hi: nat, lo: nat)
    requires hi < 16 && lo < 16
    ensures (hi * 16 + lo) / 16 == hi && (hi * 16 + lo) % 16 == lo
  {
  }

  /** Re-encoding a chunk read as a byte gives the chunk in lower case. */
  lemma PairDigits(hi: char, lo: char)
    requires IsHexChar(hi) && IsHexChar(lo)
    ensures ByteToHex(PairValue(hi, lo)) == [LowerAscii(hi), LowerAscii(lo)]
  {
    DivModDigits(HexValue(hi), HexValue(lo));
  }

  lemma ToHexCons(b: byte, rest: seq<byte>)
    ensures ToHex([b] + rest) == ByteToHex(b) + ToHex(rest)
  {
    assert ([b] + rest)[1..] == rest;
  }

  /** Decoding and re-encoding hex text yields its lower-case form: an
      imported key written in upper case is not what `toHex` of its bytes
      would give. */
  lemma {:induction false} FromHexToHex(s: string)
    requires IsHexText(s)
    ensures ToHex(FromHex(s)) == LowerCase(s)
  {
    if s != "" {
      var b := PairValue(s[0], s[1]);
      var rest := FromHex(s[2..]);
      FromHexToHex(s[2..]);
      PairDigits(s[0], s[1]);
      ToHexCons(b, rest);
      assert FromHex(s) == [b] + rest;
      assert LowerCase(s) == [LowerAscii(s[0]), LowerAscii(s[1])] + LowerCase(s[2..]);
    }
  }
}
