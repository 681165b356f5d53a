/**
 * PHP's `urlencode` and `http_build_query` over flat string arrays.
 * Strings are read as UTF-8, as PHP sees them: a character outside the
 * unreserved set becomes the percent escapes of its UTF-8 bytes.
 */
module QueryString {
  import opened PhpStrings
  import opened PhpArrays

  /** The characters `urlencode` leaves alone: letters, digits, `-`, `.` and `_`. */
  predicate Unreserved(c: char)
  {
    'a' <= c <= 'z' || 'A' <= c <= 'Z' || '0' <= c <= '9' || c == '-' || c == '.' || c == '_'
  }

  /** The UTF-8 encoding of one character, as byte values. */
  function Utf8(c: char): (bytes: seq<int>)
    ensures 1 <= |bytes| <= 4
    ensures forall k :: 0 <= k < |bytes| ==> 0 <= bytes[k] < 256
    ensures c as int < 0x80 ==> bytes == [c as int]
  {
    var n := c as int;
    if n < 0x80 then [n]
    else if n < 0x800 then [0xC0 + n / 0x40, 0x80 + n % 0x40]
    else if n < 0x1_0000 then [0xE0 + n / 0x1000, 0x80 + n / 0x40 % 0x40, 0x80 + n % 0x40]
    else [0xF0 + n / 0x4_0000, 0x80 + n / 0x1000 % 0x40, 0x80 + n / 0x40 % 0x40, 0x80 + n % 0x40]
  }

  /** An upper-case hexadecimal digit. */
  function HexDigit(d: int): (c: char)
    requires 0 <= d < 16
    ensures c != '='
  {
    if d < 10 then ('0' as int + d) as char else ('A' as int + d - 10) as char
  }

  /** `%XX` for each byte. */
  function PercentEscapes(bytes: seq<int>): (r: string)
    requires forall k :: 0 <= k < |bytes| ==> 0 <= bytes[k] < 256
    ensures '=' !in r
    ensures |r| == 3 * |bytes|
  {
    if bytes == [] then ""
    else ['%', HexDigit(bytes[0] / 16), HexDigit(bytes[0] % 16)] + PercentEscapes(bytes[1..])
  }

  /** `urlencode` of a single character. */
  function EncodeChar(c: char): (r: string)
    ensures '=' !in r && r != ""
    ensures Unreserved(c) <==> r == [c]
  {
    if Unreserved(c) then [c]
    else if c == ' ' then "+"
    else PercentEscapes(Utf8(c))
  }

  /** `urlencode($s)`. Its output never contains `=`. */
  function UrlEncode(s: string): (r: string)
    ensures '=' !in r
    ensures |r| >= |s|
  {
    if s == [] then "" else EncodeChar(s[0]) + UrlEncode(s[1..])
  }

  /** `urlencode` leaves a string of unreserved characters as it is. */
  lemma {:induction false} UrlEncodeUnreserved(s: string)
    requires forall k :: 0 <= k < |s| ==> Unreserved(s[k])
    ensures UrlEncode(s) == s
  {
    if s != [] {
      UrlEncodeUnreserved(s[1..]);
      assert s == [s[0]] + s[1..];
    }
  }

  /** The `k=v` field of each entry, both sides URL-encoded, in order. */
  function Fields(a: Entries): (r: seq<string>)
    ensures |r| == |a|
  {
    if a == [] then [] else [UrlEncode(a[0].0) + "=" + UrlEncode(a[0].1)] + Fields(a[1..])
  }

  /** `http_build_query($a, '', $separator)` for a flat array of strings. */
  function BuildQuery(a: Entries, separator: string): (query: string)
    ensures a == [] <==> query == ""
  {
    var fields := Fields(a);
    if a == [] then "" else
      var first := UrlEncode(a[0].0) + "=" + UrlEncode(a[0].1);
      assert fields[0] == first;
      ImplodePrefix(separator, fields);
      assert |first| > 0;
      Implode(separator, fields)
  }
}
