/**
 * JavaScript values as the hub nodes see them, and the few language operations
 * their code relies on: truthiness, `||`, `??`, property access, strict
 * equality, `String(x)`, `Number(x)`, `String.prototype.trim` and lower-casing.
 *
 * Numbers are modelled as unbounded integers. An object is the list of its own
 * enumerable properties in enumeration order, because the order is visible in
 * `JSON.stringify` output.
 */
module Js {

  datatype Option<+T> = None | Some(value: T)

  datatype JsValue =
    | Undefined
    | Null
    | Bool(b: bool)
    | Num(n: int)
    | Str(s: string)
    | Arr(items: seq<JsValue>)
    | Obj(props: seq<(string, JsValue)>)

  /** Values compared by content under `===`; arrays and objects compare by reference. */
  predicate IsPrimitive(v: JsValue) {
    !v.Arr? && !v.Obj?
  }

  predicate Truthy(v: JsValue) {
    match v
    case Undefined => false
    case Null => false
    case Bool(b) => b
    case Num(n) => n != 0
    case Str(s) => s != ""
    case Arr(_) => true
    case Obj(_) => true
  }

  /** `v == null`: undefined or null. */
  predicate IsNullish(v: JsValue) {
    v.Undefined? || v.Null?
  }

  /** `a || b` */
  function Or(a: JsValue, b: JsValue): JsValue {
    if Truthy(a) then a else b
  }

  /** `a ?? b` */
  function Coalesce(a: JsValue, b: JsValue): JsValue {
    if IsNullish(a) then b else a
  }

  /**
   * `a === b`. Two array or object values of this model stand for distinct
   * references, so they are never strictly equal.
   */
  predicate StrictEquals(a: JsValue, b: JsValue) {
    IsPrimitive(a) && a == b
  }

  /** The value bound to `key` in a property list (its first binding), or undefined. */
  function Lookup(props: seq<(string, JsValue)>, key: string): JsValue {
    if |props| == 0 then Undefined
    else if props[0].0 == key then props[0].1
    else Lookup(props[1..], key)
  }

  /** No element occurs twice. */
  predicate Distinct<T(==)>(xs: seq<T>) {
    forall i, j :: 0 <= i < j < |xs| ==> xs[i] != xs[j]
  }

  predicate HasKey(props: seq<(string, JsValue)>, key: string) {
    exists i :: 0 <= i < |props| && props[i].0 == key
  }

  /**
   * `v[key]` for a value that is not undefined or null (for those JavaScript
   * throws, and callers model that themselves). Primitives and arrays have
   * none of the named properties the nodes read.
   */
  function Get(v: JsValue, key: string): JsValue {
    if v.Obj? then Lookup(v.props, key) else Undefined
  }

  /** The property list after `obj[key] = value`: an existing key keeps its place, a new one goes last. */
  function SetIn(props: seq<(string, JsValue)>, key: string, value: JsValue): seq<(string, JsValue)> {
    if |props| == 0 then [(key, value)]
    else if props[0].0 == key then [(key, value)] + props[1..]
    else [props[0]] + SetIn(props[1..], key, value)
  }

  /** `v.length` */
  function Length(v: JsValue): JsValue {
    match v
    case Str(s) => Num(|s|)
    case Arr(items) => Num(|items|)
    case Obj(_) => Get(v, "length")
    case _ => Undefined
  }

  lemma {:induction false} LookupSetIn(props: seq<(string, JsValue)>, key: string, value: JsValue, other: string)
    ensures Lookup(SetIn(props, key, value), key) == value
    ensures other != key ==> Lookup(SetIn(props, key, value), other) == Lookup(props, other)
  {
    if |props| > 0 && props[0].0 != key {
      LookupSetIn(props[1..], key, value, other);
    }
  }

  /** Assigning one property leaves every other property's value as it was. */
  lemma LookupSetInOthers(props: seq<(string, JsValue)>, key: string, value: JsValue)
    ensures Lookup(SetIn(props, key, value), key) == value
    ensures forall other :: other != key ==> Lookup(SetIn(props, key, value), other) == Lookup(props, other)
  {
    LookupSetIn(props, key, value, key);
    forall other | other != key
      ensures Lookup(SetIn(props, key, value), other) == Lookup(props, other)
    {
      LookupSetIn(props, key, value, other);
    }
  }

  lemma {:induction false} LookupFound(props: seq<(string, JsValue)>, key: string)
    ensures Lookup(props, key) != Undefined ==> HasKey(props, key)
  {
    if |props| > 0 && props[0].0 != key {
      LookupFound(props[1..], key);
      if Lookup(props, key) != Undefined {
        var i :| 0 <= i < |props[1..]| && props[1..][i].0 == key;
        assert props[i + 1].0 == key;
      }
    }
  }

  // ---------------------------------------------------------------- String(x)

  function DigitChar(d: int): (c: char)
    requires 0 <= d < 10
    ensures '0' <= c <= '9' && c as int - '0' as int == d
  {
    ('0' as int + d) as char
  }

  predicate IsDigit(c: char) {
    '0' <= c <= '9'
  }

  predicate AllDigits(s: string) {
    forall i :: 0 <= i < |s| ==> IsDigit(s[i])
  }

  /** Decimal digits of a natural number, without leading zeros. */
  function NatToDecimal(n: nat): (r: string)
    ensures |r| > 0 && AllDigits(r)
    ensures n > 0 ==> r[0] != '0'
    decreases n
  {
    if n < 10 then [DigitChar(n)] else NatToDecimal(n / 10) + [DigitChar(n % 10)]
  }

  /** `String(n)` for an integer number. */
  function IntToDecimal(n: int): string {
    if n < 0 then "-" + NatToDecimal(-n) else NatToDecimal(n)
  }

  /** `String(v)`; an array joins its elements with commas, undefined and null elements showing as empty. */
  function ToStr(v: JsValue): string
    decreases v, 1
  {
    match v
    case Undefined => "undefined"
    case Null => "null"
    case Bool(b) => if b then "true" else "false"
    case Num(n) => IntToDecimal(n)
    case Str(s) => s
    case Arr(items) => JoinFrom(v, 0)
    case Obj(_) => "[object Object]"
  }

  /** `Array.prototype.join(",")` over the elements of array `v` from position i on. */
  function JoinFrom(v: JsValue, i: nat): string
    requires v.Arr?
    decreases v, 0, |v.items| - i
  {
    if i >= |v.items| then ""
    else
      var item := v.items[i];
      var part := if IsNullish(item) then "" else ToStr(item);
      if i + 1 == |v.items| then part else part + "," + JoinFrom(v, i + 1)
  }

  // ---------------------------------------------------------------- trim and Number(x)

  /** The characters `String.prototype.trim` removes: WhiteSpace and LineTerminator of ECMAScript. */
  predicate IsJsWhitespace(c: char) {
    || c == '\t' || c == '\n' || c == '\U{B}' || c == '\U{C}' || c == '\r' || c == ' '
    || c == '\U{A0}' || c == '\U{1680}' || ('\U{2000}' <= c <= '\U{200A}')
    || c == '\U{2028}' || c == '\U{2029}' || c == '\U{202F}' || c == '\U{205F}'
    || c == '\U{3000}' || c == '\U{FEFF}'
  }

  function TrimStart(s: string): (r: string)
    ensures r == "" || !IsJsWhitespace(r[0])
  {
    if |s| > 0 && IsJsWhitespace(s[0]) then TrimStart(s[1..]) else s
  }

  function TrimEnd(s: string): string {
    if |s| > 0 && IsJsWhitespace(s[|s| - 1]) then TrimEnd(s[..|s| - 1]) else s
  }

  function Trim(s: string): string {
    TrimEnd(TrimStart(s))
  }

  predicate AllWhitespace(s: string) {
    forall i :: 0 <= i < |s| ==> IsJsWhitespace(s[i])
  }

  lemma {:induction false} TrimStartEmpty(s: string)
    ensures TrimStart(s) == "" <==> AllWhitespace(s)
  {
    if |s| > 0 && IsJsWhitespace(s[0]) {
      TrimStartEmpty(s[1..]);
      assert AllWhitespace(s[1..]) ==> AllWhitespace(s) by {
        if AllWhitespace(s[1..]) {
          forall i | 0 <= i < |s| ensures IsJsWhitespace(s[i]) {
            if i > 0 { assert s[i] == s[1..][i - 1]; }
          }
        }
      }
    }
  }

  lemma {:induction false} TrimEndEmpty(s: string)
    requires s == "" || !IsJsWhitespace(s[0])
    ensures TrimEnd(s) == "" <==> s == ""
  {
    if |s| > 0 && IsJsWhitespace(s[|s| - 1]) {
      TrimEndEmpty(s[..|s| - 1]);
    }
  }

  /** A string trims to nothing exactly when every character of it is whitespace. */
  lemma TrimEmpty(s: string)
    ensures Trim(s) == "" <==> AllWhitespace(s)
  {
    TrimStartEmpty(s);
    TrimEndEmpty(TrimStart(s));
  }

  lemma {:induction false} TrimKeepsDigits(s: string)
    requires AllDigits(s)
    ensures Trim(s) == s
  {
    assert TrimStart(s) == s;
    assert TrimEnd(s) == s;
  }

  /** The value of a string of decimal digits. */
  function DecimalValue(s: string): nat
    requires AllDigits(s)
  {
    if |s| == 0 then 0
    else DecimalValue(s[..|s| - 1]) * 10 + (s[|s| - 1] as int - '0' as int)
  }

  /**
   * `Number(s)` for a string, None standing for NaN: surrounding whitespace is
   * ignored, an empty string is 0, and a decimal integer with an optional sign
   * is its value.
   */
  function StringToNumber(s: string): Option<int> {
    var t := Trim(s);
    if t == "" then Some(0)
    else if AllDigits(t) then Some(DecimalValue(t))
    else if (t[0] == '+' || t[0] == '-') && |t| > 1 && AllDigits(t[1..]) then
      Some((if t[0] == '-' then -1 else 1) * DecimalValue(t[1..]))
    else None
  }

  /** `Number(v)`, None standing for NaN. */
  function ToNumber(v: JsValue): Option<int> {
    match v
    case Undefined => None
    case Null => Some(0)
    case Bool(b) => Some(if b then 1 else 0)
    case Num(n) => Some(n)
    case Str(s) => StringToNumber(s)
    case Arr(_) => StringToNumber(ToStr(v))
    case Obj(_) => None
  }

  lemma {:induction false} DecimalValueOfNat(n: nat)
    ensures DecimalValue(NatToDecimal(n)) == n
    decreases n
  {
    var r := NatToDecimal(n);
    if n >= 10 {
      DecimalValueOfNat(n / 10);
      assert r[..|r| - 1] == NatToDecimal(n / 10);
    }
  }

  /** A minus sign followed by digits is read as the negated value of the digits. */
  lemma NumberOfNegative(d: string)
    requires |d| > 0 && AllDigits(d)
    ensures StringToNumber("-" + d) == Some(-1 * DecimalValue(d))
  {
    var s := "-" + d;
    assert s[1..] == d;
    assert !AllDigits(s) by { assert !IsDigit(s[0]); }
    assert TrimStart(s) == s;
    assert TrimEnd(s) == s by { assert IsDigit(s[|s| - 1]); }
  }

  /** The digits of a natural number are read back as that number. */
  lemma NumberOfNat(n: nat)
    ensures StringToNumber(NatToDecimal(n)) == Some(n)
    ensures StringToNumber("-" + NatToDecimal(n)) == Some(-1 * n)
  {
    TrimKeepsDigits(NatToDecimal(n));
    DecimalValueOfNat(n);
    NumberOfNegative(NatToDecimal(n));
  }

  /** `Number(String(n)) === n` for every integer n. */
  lemma NumberOfDecimal(n: int)
    ensures StringToNumber(IntToDecimal(n)) == Some(n)
  {
    if n < 0 {
      NumberOfNat(-n);
    } else {
      NumberOfNat(n);
    }
  }

  /** `s.toLowerCase()` on ASCII letters (the attribute names it is applied to are ASCII). */
  function ToLowerAscii(s: string): (r: string)
    ensures |r| == |s|
  {
    seq(|s|, i requires 0 <= i < |s| =>
      if 'A' <= s[i] <= 'Z' then (s[i] as int + 32) as char else s[i])
  }
}
