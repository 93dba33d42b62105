/**
 * Form-urlencoded decoding as `urllib.parse.unquote_plus` performs it
 * (`+` becomes a space, then `%XX` is replaced by the character with that
 * code, as in section 2.1 of RFC 3986), and the encoding the storage service
 * is taken to apply to object keys in its event notifications.
 */
module UrlCoding {

  predicate IsHexDigit(c: char)
  {
    '0' <= c <= '9' || 'a' <= c <= 'f' || 'A' <= c <= 'F'
  }

  function HexValue(c: char): (v: nat)
    requires IsHexDigit(c)
    ensures v < 16
  {
    if '0' <= c <= '9' then c as int - '0' as int
    else if 'a' <= c <= 'f' then c as int - 'a' as int + 10
    else c as int - 'A' as int + 10
  }

  /** The upper-case hexadecimal digit for `v`. */
  function HexDigit(v: nat): (c: char)
    requires v < 16
    ensures IsHexDigit(c) && HexValue(c) == v
  {
    if v < 10 then ('0' as int + v) as char else ('A' as int + v - 10) as char
  }

  /** First pass of `unquote_plus`: every `+` becomes a space. */
  function ReplacePlus(s: string): (r: string)
    ensures |r| == |s|
    ensures forall i :: 0 <= i < |s| ==> r[i] == (if s[i] == '+' then ' ' else s[i])
  {
    if s == [] then [] else [if s[0] == '+' then ' ' else s[0]] + ReplacePlus(s[1..])
  }

  /**
   * Second pass, `unquote`: a `%` followed by two hexadecimal digits is
   * replaced by one character; any other `%` stays as it is.
   */
  function Unquote(s: string): (r: string)
    ensures |r| <= |s|
    ensures '%' !in s ==> r == s
    decreases |s|
  {
    if |s| == 0 then ""
    else if s[0] == '%' && |s| >= 3 && IsHexDigit(s[1]) && IsHexDigit(s[2]) then
      [(16 * HexValue(s[1]) + HexValue(s[2])) as char] + Unquote(s[3..])
    else
      assert s == [s[0]] + s[1..];
      [s[0]] + Unquote(s[1..])
  }

  /** `urllib.parse.unquote_plus`. */
  function UnquotePlus(s: string): (r: string)
    ensures |r| <= |s|
    ensures '%' !in s ==> |r| == |s| && forall i :: 0 <= i < |s| ==> r[i] == (if s[i] == '+' then ' ' else s[i])
  {
    Unquote(ReplacePlus(s))
  }

  /** Characters the event encoding leaves as they are. */
  predicate KeptVerbatim(c: char)
  {
    || 'A' <= c <= 'Z' || 'a' <= c <= 'z' || '0' <= c <= '9'
    || c == '-' || c == '_' || c == '.' || c == '~' || c == '/'
    || c as int >= 128
  }

  /** How one character of an object key appears in an event notification. */
  function EncodeChar(c: char): string
  {
    if c == ' ' then "+"
    else if KeptVerbatim(c) then [c]
    else ['%', HexDigit(c as int / 16), HexDigit(c as int % 16)]
  }

  /** The percent-encoded object key carried by a storage event. */
  function EncodeEventKey(s: string): (r: string)
    ensures |r| >= |s|
    ensures ' ' !in r
    ensures (forall i :: 0 <= i < |s| ==> KeptVerbatim(s[i])) ==> r == s
  {
    if s == [] then [] else EncodeChar(s[0]) + EncodeEventKey(s[1..])
  }

  lemma {:induction false} ReplacePlusAppend(a: string, b: string)
    ensures ReplacePlus(a + b) == ReplacePlus(a) + ReplacePlus(b)
    decreases |a|
  {
    if a == [] {
      assert a + b == b;
    } else {
      assert (a + b)[0] == a[0] && (a + b)[1..] == a[1..] + b;
      ReplacePlusAppend(a[1..], b);
    }
  }

  /** Decoding an encoded character gives that character, whatever follows. */
  lemma DecodeEncodedChar(c: char, t: string)
    ensures Unquote(ReplacePlus(EncodeChar(c)) + t) == [c] + Unquote(t)
  {
    var e := ReplacePlus(EncodeChar(c));
    if c == ' ' {
      assert e == [' '];
      assert (e + t)[1..] == t;
    } else if KeptVerbatim(c) {
      assert e == [c];
      assert (e + t)[1..] == t;
    } else {
      var hi, lo := HexDigit(c as int / 16), HexDigit(c as int % 16);
      assert e == ['%', hi, lo];
      var s := e + t;
      assert s[0] == '%' && s[1] == hi && s[2] == lo && s[3..] == t;
      assert 16 * HexValue(hi) + HexValue(lo) == c as int;
    }
  }

  /** `unquote_plus` undoes the event encoding, for every key. */
  lemma {:induction false} DecodeEventKey(s: string)
    ensures UnquotePlus(EncodeEventKey(s)) == s
  {
    if s != [] {
      ReplacePlusAppend(EncodeChar(s[0]), EncodeEventKey(s[1..]));
      DecodeEncodedChar(s[0], ReplacePlus(EncodeEventKey(s[1..])));
      DecodeEventKey(s[1..]);
      assert [s[0]] + s[1..] == s;
    }
  }

  /** A key with neither `+` nor `%` is decoded to itself. */
  lemma UnquotePlusPlain(s: string)
    requires '+' !in s && '%' !in s
    ensures UnquotePlus(s) == s
  {
    assert ReplacePlus(s) == s;
  }
}
