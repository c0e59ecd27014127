/**
 * The two text encodings the restore node applies to command arguments:
 * `JSON.stringify` on the values a saved state holds, and `encodeURIComponent`
 * on the resulting text. Each comes with its inverse, so that what the hub
 * receives can be read back.
 *
 * Characters are Unicode scalar values, so a string never holds a lone
 * surrogate and `encodeURIComponent` never throws.
 */
module Encoding {
  import opened Js

  // ---------------------------------------------------------------- hexadecimal digits

  predicate IsHexDigit(c: char) {
    ('0' <= c <= '9') || ('A' <= c <= 'F') || ('a' <= c <= 'f')
  }

  /** The hexadecimal digit for d, in upper or lower case. */
  function HexDigit(d: int, upper: bool): (c: char)
    requires 0 <= d < 16
    ensures IsHexDigit(c)
  {
    if d < 10 then DigitChar(d)
    else ((if upper then 'A' as int else 'a' as int) + d - 10) as char
  }

  function HexValue(c: char): int {
    if '0' <= c <= '9' then c as int - '0' as int
    else if 'A' <= c <= 'F' then c as int - 'A' as int + 10
    else c as int - 'a' as int + 10
  }

  lemma HexDigitValue(d: int, upper: bool)
    requires 0 <= d < 16
    ensures HexValue(HexDigit(d, upper)) == d
  {
  }

  // ---------------------------------------------------------------- JSON.stringify

  /** The JSON text for one character of a string: `"` and `\` escaped, control characters as short or `\u00xx` escapes. */
  function EscapeChar(c: char): (r: string)
    ensures |r| > 0
  {
    if c == '"' then "\\\""
    else if c == '\\' then "\\\\"
    else if c == '\U{8}' then "\\b"
    else if c == '\U{C}' then "\\f"
    else if c == '\n' then "\\n"
    else if c == '\r' then "\\r"
    else if c == '\t' then "\\t"
    else if c < ' ' then "\\u00" + [HexDigit(c as int / 16, false), HexDigit(c as int % 16, false)]
    else [c]
  }

  function EscapeText(s: string): string {
    if |s| == 0 then "" else EscapeChar(s[0]) + EscapeText(s[1..])
  }

  /** A JSON string literal. */
  function Quote(s: string): string {
    "\"" + EscapeText(s) + "\""
  }

  /** The character a one-letter escape `\e` stands for. */
  function Unescaped(e: char): char {
    if e == 'b' then '\U{8}'
    else if e == 'f' then '\U{C}'
    else if e == 'n' then '\n'
    else if e == 'r' then '\r'
    else if e == 't' then '\t'
    else e
  }

  /** The value of four hexadecimal digits. */
  function Hex4(s: string): int
    requires |s| == 4
  {
    ((HexValue(s[0]) * 16 + HexValue(s[1])) * 16 + HexValue(s[2])) * 16 + HexValue(s[3])
  }

  /** Reads the body of a JSON string literal back: the inverse of `EscapeText`. */
  function Unescape(s: string): string
    decreases |s|
  {
    if |s| == 0 then ""
    else if s[0] == '\\' && |s| >= 6 && s[1] == 'u' && 0 <= Hex4(s[2..6]) < 0xD800 then
      [Hex4(s[2..6]) as char] + Unescape(s[6..])
    else if s[0] == '\\' && |s| >= 2 then [Unescaped(s[1])] + Unescape(s[2..])
    else [s[0]] + Unescape(s[1..])
  }

  lemma UnescapeChar(c: char, rest: string)
    ensures Unescape(EscapeChar(c) + rest) == [c] + Unescape(rest)
  {
    var e := EscapeChar(c) + rest;
    if c < ' ' && c != '\U{8}' && c != '\U{C}' && c != '\n' && c != '\r' && c != '\t' {
      var hi := c as int / 16;
      var lo := c as int % 16;
      HexDigitValue(hi, false);
      HexDigitValue(lo, false);
      assert e[2..6] == ['0', '0', HexDigit(hi, false), HexDigit(lo, false)];
      assert Hex4(e[2..6]) == c as int;
      assert e[6..] == rest;
    } else if |EscapeChar(c)| == 2 {
      assert e[2..] == rest;
    } else {
      assert e[1..] == rest;
    }
  }

  /** Escaping a string and reading it back gives the string. */
  lemma {:induction false} UnescapeEscape(s: string)
    ensures Unescape(EscapeText(s)) == s
  {
    if |s| > 0 {
      UnescapeChar(s[0], EscapeText(s[1..]));
      UnescapeEscape(s[1..]);
      assert s == [s[0]] + s[1..];
    }
  }

  /** `JSON.stringify(v)` for v other than undefined; undefined here is the `null` it becomes as an array element. */
  function Json(v: JsValue): string
    decreases v, 1
  {
    match v
    case Undefined => "null"
    case Null => "null"
    case Bool(b) => if b then "true" else "false"
    case Num(n) => IntToDecimal(n)
    case Str(s) => Quote(s)
    case Arr(_) => "[" + JsonItems(v, 0) + "]"
    case Obj(_) => "{" + JsonMembers(v, 0) + "}"
  }

  /** The comma-separated elements of array v from position i on. */
  function JsonItems(v: JsValue, i: nat): string
    requires v.Arr?
    decreases v, 0, |v.items| - i
  {
    if i >= |v.items| then ""
    else if i + 1 == |v.items| then Json(v.items[i])
    else Json(v.items[i]) + "," + JsonItems(v, i + 1)
  }

  /** The comma-separated `"key":value` members of object v from position i on; undefined values are skipped. */
  function JsonMembers(v: JsValue, i: nat): string
    requires v.Obj?
    decreases v, 0, |v.props| - i
  {
    if i >= |v.props| then ""
    else
      var rest := JsonMembers(v, i + 1);
      if v.props[i].1 == Undefined then rest
      else
        var member := Member(v.props[i].0, Json(v.props[i].1));
        if rest == "" then member else member + "," + rest
  }

  /** One `"key":value` member of an object's JSON text. */
  function Member(key: string, text: string): string {
    Quote(key) + ":" + text
  }

  /** An array of one element, as the planner builds for `setLevel`. */
  lemma JsonSingleton(x: JsValue)
    ensures Json(Arr([x])) == "[" + Json(x) + "]"
  {
  }

  /** Text with no character JSON escapes is quoted as it is. */
  lemma {:induction false} EscapePlain(s: string)
    requires forall i :: 0 <= i < |s| ==> ' ' <= s[i] && s[i] != '"' && s[i] != '\\'
    ensures EscapeText(s) == s
  {
    if |s| > 0 {
      EscapePlain(s[1..]);
      assert s == [s[0]] + s[1..];
    }
  }

  /** An object of three defined members, as the planner builds for `setColor`. */
  lemma JsonObject3(k1: string, a: JsValue, k2: string, b: JsValue, k3: string, c: JsValue)
    requires a != Undefined && b != Undefined && c != Undefined
    ensures Json(Obj([(k1, a), (k2, b), (k3, c)]))
      == "{" + (Member(k1, Json(a)) + "," + (Member(k2, Json(b)) + "," + Member(k3, Json(c)))) + "}"
  {
    var o := Obj([(k1, a), (k2, b), (k3, c)]);
    assert JsonMembers(o, 3) == "";
    assert JsonMembers(o, 2) == Member(k3, Json(c)) != "";
    assert JsonMembers(o, 1) == Member(k2, Json(b)) + "," + Member(k3, Json(c));
  }

  // ---------------------------------------------------------------- encodeURIComponent

  predicate IsAsciiAlnum(c: char) {
    ('a' <= c <= 'z') || ('A' <= c <= 'Z') || ('0' <= c <= '9')
  }

  /** The characters `encodeURIComponent` leaves as they are. */
  predicate Unreserved(c: char) {
    || IsAsciiAlnum(c)
    || c == '-' || c == '_' || c == '.' || c == '!' || c == '~' || c == '*' || c == '\'' || c == '(' || c == ')'
  }

  predicate IsByte(b: int) {
    0 <= b < 256
  }

  /** The UTF-8 encoding of one character. */
  function Utf8(c: char): (bytes: seq<int>)
    ensures 1 <= |bytes| <= 4 && forall i :: 0 <= i < |bytes| ==> IsByte(bytes[i])
  {
    var n := c as int;
    if n < 0x80 then [n]
    else if n < 0x800 then [0xC0 + n / 64, 0x80 + n % 64]
    else if n < 0x10000 then [0xE0 + n / 4096, 0x80 + (n / 64) % 64, 0x80 + n % 64]
    else [0xF0 + n / 262144, 0x80 + (n / 4096) % 64, 0x80 + (n / 64) % 64, 0x80 + n % 64]
  }

  function Utf8Text(s: string): seq<int> {
    if |s| == 0 then [] else Utf8(s[0]) + Utf8Text(s[1..])
  }

  /** `%XX` for each byte, in upper-case hexadecimal. */
  function PercentBytes(bytes: seq<int>): (r: string)
    requires forall i :: 0 <= i < |bytes| ==> IsByte(bytes[i])
    ensures forall i :: 0 <= i < |r| ==> r[i] == '%' || IsAsciiAlnum(r[i])
  {
    if |bytes| == 0 then ""
    else
      var b := bytes[0];
      assert IsByte(b);
      ['%', HexDigit(b / 16, true), HexDigit(b % 16, true)] + PercentBytes(bytes[1..])
  }

  /** `encodeURIComponent(s)` */
  function EncodeUriComponent(s: string): (r: string)
    ensures forall i :: 0 <= i < |r| ==> Unreserved(r[i]) || r[i] == '%'
  {
    if |s| == 0 then ""
    else (if Unreserved(s[0]) then [s[0]] else PercentBytes(Utf8(s[0]))) + EncodeUriComponent(s[1..])
  }

  /** Reads `%XX` escapes back to bytes; any other character stands for its own code. */
  function PercentDecode(s: string): seq<int>
    decreases |s|
  {
    if |s| == 0 then []
    else if s[0] == '%' && |s| >= 3 && IsHexDigit(s[1]) && IsHexDigit(s[2]) then
      [HexValue(s[1]) * 16 + HexValue(s[2])] + PercentDecode(s[3..])
    else [s[0] as int] + PercentDecode(s[1..])
  }

  lemma {:induction false} PercentDecodeBytes(bytes: seq<int>, rest: string)
    requires forall i :: 0 <= i < |bytes| ==> IsByte(bytes[i])
    ensures PercentDecode(PercentBytes(bytes) + rest) == bytes + PercentDecode(rest)
  {
    if |bytes| > 0 {
      var b := bytes[0];
      HexDigitValue(b / 16, true);
      HexDigitValue(b % 16, true);
      var tail := PercentBytes(bytes[1..]) + rest;
      var s := PercentBytes(bytes) + rest;
      assert s == ['%', HexDigit(b / 16, true), HexDigit(b % 16, true)] + tail;
      assert s[3..] == tail;
      assert HexValue(s[1]) * 16 + HexValue(s[2]) == b;
      assert PercentDecode(s) == [b] + PercentDecode(tail);
      PercentDecodeBytes(bytes[1..], rest);
      assert bytes + PercentDecode(rest) == [b] + (bytes[1..] + PercentDecode(rest));
    } else {
      assert PercentBytes(bytes) + rest == rest;
    }
  }

  lemma PercentDecodeChar(c: char, rest: string)
    ensures PercentDecode((if Unreserved(c) then [c] else PercentBytes(Utf8(c))) + rest) == Utf8(c) + PercentDecode(rest)
  {
    if Unreserved(c) {
      assert ([c] + rest)[1..] == rest;
    } else {
      PercentDecodeBytes(Utf8(c), rest);
    }
  }

  /** Undoing the percent escapes of `encodeURIComponent(s)` gives the UTF-8 bytes of s. */
  lemma {:induction false} PercentDecodeEncode(s: string)
    ensures PercentDecode(EncodeUriComponent(s)) == Utf8Text(s)
  {
    if |s| > 0 {
      PercentDecodeChar(s[0], EncodeUriComponent(s[1..]));
      PercentDecodeEncode(s[1..]);
    }
  }

  /** How many bytes a UTF-8 sequence has, from its first byte. */
  function Utf8Width(lead: int): nat {
    if lead < 0x80 then 1 else if lead < 0xE0 then 2 else if lead < 0xF0 then 3 else 4
  }

  /** The code point a complete UTF-8 sequence encodes. */
  function Utf8Value(u: seq<int>): int
    requires 1 <= |u| <= 4
  {
    if |u| == 1 then u[0]
    else if |u| == 2 then (u[0] - 0xC0) * 64 + (u[1] - 0x80)
    else if |u| == 3 then ((u[0] - 0xE0) * 64 + (u[1] - 0x80)) * 64 + (u[2] - 0x80)
    else (((u[0] - 0xF0) * 64 + (u[1] - 0x80)) * 64 + (u[2] - 0x80)) * 64 + (u[3] - 0x80)
  }

  /** The code points of a UTF-8 byte sequence; a truncated last sequence is dropped. */
  function Utf8Decode(bytes: seq<int>): seq<int>
    decreases |bytes|
  {
    if |bytes| == 0 then []
    else
      var w := Utf8Width(bytes[0]);
      if |bytes| < w then [] else [Utf8Value(bytes[..w])] + Utf8Decode(bytes[w..])
  }

  function CodePoints(s: string): (r: seq<int>)
    ensures |r| == |s| && forall i :: 0 <= i < |s| ==> r[i] == s[i] as int
  {
    if |s| == 0 then [] else [s[0] as int] + CodePoints(s[1..])
  }

  lemma SplitBy64(n: int)
    requires n >= 0
    ensures n == (n / 64) * 64 + n % 64
    ensures n / 64 / 64 == n / 4096 && n / 4096 / 64 == n / 262144
  {
  }

  /** The first byte of a character's encoding gives its length, and the bytes give back the character. */
  lemma Utf8Char(c: char)
    ensures Utf8Width(Utf8(c)[0]) == |Utf8(c)| && Utf8Value(Utf8(c)) == c as int
  {
    var n := c as int;
    SplitBy64(n);
    SplitBy64(n / 64);
    SplitBy64(n / 4096);
  }

  lemma {:induction false} Utf8DecodeText(s: string)
    ensures Utf8Decode(Utf8Text(s)) == CodePoints(s)
  {
    if |s| > 0 {
      var u := Utf8(s[0]);
      var t := Utf8Text(s[1..]);
      Utf8Char(s[0]);
      assert (u + t)[0] == u[0] && (u + t)[..|u|] == u && (u + t)[|u|..] == t;
      Utf8DecodeText(s[1..]);
    }
  }

  /** `encodeURIComponent` loses nothing: percent-decoding and then UTF-8 decoding gives back the characters. */
  lemma UriComponentRoundTrip(s: string)
    ensures Utf8Decode(PercentDecode(EncodeUriComponent(s))) == CodePoints(s)
  {
    PercentDecodeEncode(s);
    Utf8DecodeText(s);
  }
}
