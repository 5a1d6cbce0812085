/** The JavaScript values that flow through the runner: job payloads,
    worker notifications and the messages exchanged with the build host.
    Only what the runner's logic inspects is modelled: property reads
    (which throw on `undefined` and `null`), truthiness, conversion to a
    string in template literals, and `parseInt(s, 10)`. */
module JsValue {

  type byte = x: int | 0 <= x < 256

  datatype Option<+T> = None | Some(value: T)

  /** A JavaScript value. Numbers are restricted to integers (no NaN, no
      fractions); `Error` is an instance of one of the built-in error
      classes, identified by its `name` and `message`. */
  datatype Value =
    | Undefined
    | Null
    | Bool(b: bool)
    | Num(n: int)
    | Str(s: string)
    | Buffer(bytes: seq<byte>)
    | Arr(items: seq<Value>)
    | Obj(fields: map<string, Value>)
    | Error(name: string, message: string)

  /** How evaluating an expression ends: with a value, or by throwing
      (for an async function: with a rejected promise). */
  datatype Completion<+T> = Normal(value: T) | Throw(error: Value)

  /** The textual base64 form of a byte sequence, as produced by
      `Buffer#toString('base64')`; kept symbolic, so that the bytes it
      encodes can be read back. */
  datatype Base64Text = Base64Of(bytes: seq<byte>)

  predicate Nullish(v: Value) {
    v.Undefined? || v.Null?
  }

  /** JavaScript truthiness (`if (v)`, `v || d`). */
  predicate Truthy(v: Value) {
    match v
    case Undefined => false
    case Null => false
    case Bool(b) => b
    case Num(n) => n != 0
    case Str(s) => s != ""
    case _ => true
  }

  function TypeError(message: string): Value {
    Error("TypeError", message)
  }

  /** The TypeError thrown by reading property `key` of `holder`
      (`undefined` or `null`). */
  function PropertyReadError(holder: string, key: string): Value {
    TypeError("Cannot read properties of " + holder + " (reading '" + key + "')")
  }

  /** `v.key`: reading any property of `undefined` or `null` throws a
      TypeError; an object yields its own property or `undefined`. */
  function Get(v: Value, key: string): (r: Completion<Value>)
    ensures r.Throw? <==> Nullish(v)
    ensures r.Throw? ==> r.error.Error? && r.error.name == "TypeError"
    ensures v.Obj? && key in v.fields ==> r == Normal(v.fields[key])
    ensures v.Obj? && key !in v.fields ==> r == Normal(Undefined)
  {
    match v
    case Undefined => Throw(PropertyReadError("undefined", key))
    case Null => Throw(PropertyReadError("null", key))
    case Obj(fields) => Normal(if key in fields then fields[key] else Undefined)
    case Arr(items) => Normal(if key == "length" then Num(|items|) else Undefined)
    case Str(s) => Normal(if key == "length" then Num(|s|) else Undefined)
    case Buffer(bytes) => Normal(if key == "length" || key == "byteLength" then Num(|bytes|) else Undefined)
    case Error(name, message) =>
      Normal(if key == "name" then Str(name) else if key == "message" then Str(message) else Undefined)
    case _ => Normal(Undefined)
  }

  /** A property read on a value already known not to be nullish. */
  function Field(v: Value, key: string): Value
    requires !Nullish(v)
  {
    Get(v, key).value
  }

  /** An object literal with two properties, `{ k1: v1, k2: v2 }`. */
  function Record2(k1: string, v1: Value, k2: string, v2: Value): Value {
    Obj(map[k1 := v1, k2 := v2])
  }

  function DigitChar(d: nat): char
    requires d < 10
  {
    "0123456789"[d]
  }

  predicate IsDigit(c: char) {
    '0' <= c <= '9'
  }

  function DigitValue(c: char): nat
    requires IsDigit(c)
  {
    (c as int) - ('0' as int)
  }

  /** The decimal form of a natural number, without leading zeros. */
  function NatToString(n: nat): (s: string)
    ensures |s| > 0
    ensures forall i :: 0 <= i < |s| ==> IsDigit(s[i])
  {
    if n < 10 then [DigitChar(n)] else NatToString(n / 10) + [DigitChar(n % 10)]
  }

  /** `String(v)` and `${v}`: how a value is converted to a string. */
  function ToString(v: Value): string
    decreases v
  {
    match v
    case Undefined => "undefined"
    case Null => "null"
    case Bool(b) => if b then "true" else "false"
    case Num(n) => if n < 0 then "-" + NatToString(-n) else NatToString(n)
    case Str(s) => s
    case Buffer(bytes) => seq(|bytes|, i requires 0 <= i < |bytes| => bytes[i] as char)
    case Arr(items) => JoinWithCommas(seq(|items|, i requires 0 <= i < |items| =>
                         if Nullish(items[i]) then "" else ToString(items[i])))
    case Obj(_) => "[object Object]"
    case Error(name, message) => if message == "" then name else name + ": " + message
  }

  function JoinWithCommas(parts: seq<string>): string {
    if |parts| == 0 then ""
    else if |parts| == 1 then parts[0]
    else parts[0] + "," + JoinWithCommas(parts[1..])
  }

  /** The white-space and line-terminator characters `parseInt` skips
      before the number: tab, vertical tab, form feed, the space
      separators, the byte order mark, and the four line terminators. */
  predicate IsSpace(c: char) {
    || c == ' ' || c == '\t' || c == '\n' || c == '\r' || c == '\U{000B}' || c == '\U{000C}'
    || c == '\U{00A0}' || c == '\U{1680}' || ('\U{2000}' <= c <= '\U{200A}')
    || c == '\U{2028}' || c == '\U{2029}' || c == '\U{202F}' || c == '\U{205F}'
    || c == '\U{3000}' || c == '\U{FEFF}'
  }

  function TrimStart(s: string): (t: string)
    ensures |t| <= |s| && t == s[|s| - |t|..]
    ensures |t| > 0 ==> !IsSpace(t[0])
  {
    if |s| > 0 && IsSpace(s[0]) then TrimStart(s[1..]) else s
  }

  /** The longest prefix of `s` made of decimal digits. */
  function DigitPrefix(s: string): (d: string)
    ensures |d| <= |s| && d == s[..|d|]
    ensures forall i :: 0 <= i < |d| ==> IsDigit(d[i])
    ensures |d| < |s| ==> !IsDigit(s[|d|])
  {
    if |s| > 0 && IsDigit(s[0]) then [s[0]] + DigitPrefix(s[1..]) else []
  }

  function DigitsValue(d: string): nat
    requires forall i :: 0 <= i < |d| ==> IsDigit(d[i])
  {
    if |d| == 0 then 0 else DigitsValue(d[..|d| - 1]) * 10 + DigitValue(d[|d| - 1])
  }

  /** `parseInt(s, 10)`: skips leading white space, reads an optional sign
      and the longest run of decimal digits after it, and ignores the
      rest; `None` stands for NaN (no digit at all). */
  function ParseInt(s: string): Option<int> {
    var t := TrimStart(s);
    var negative := |t| > 0 && t[0] == '-';
    var body := if |t| > 0 && (t[0] == '-' || t[0] == '+') then t[1..] else t;
    var digits := DigitPrefix(body);
    if |digits| == 0 then None
    else Some(if negative then -(DigitsValue(digits) as int) else DigitsValue(digits))
  }

  /** `n || d` for a configured number `n` that may be absent: an absent
      value, `0` and NaN are falsy and give the default. */
  function OrDefault(configured: Option<int>, default: int): int {
    if configured.Some? && configured.value != 0 then configured.value else default
  }

  lemma {:induction false} DigitsValueOfNatToString(n: nat)
    ensures DigitsValue(NatToString(n)) == n
  {
    var s := NatToString(n);
    if n >= 10 {
      DigitsValueOfNatToString(n / 10);
      assert s[..|s| - 1] == NatToString(n / 10);
    }
  }

  lemma DigitPrefixOfDigits(s: string)
    requires forall i :: 0 <= i < |s| ==> IsDigit(s[i])
    ensures DigitPrefix(s) == s
  {
  }

  lemma ParseIntOfDigits(s: string)
    requires |s| > 0
    requires forall i :: 0 <= i < |s| ==> IsDigit(s[i])
    ensures ParseInt(s) == Some(DigitsValue(s) as int)
  {
    assert IsDigit(s[0]);
    assert !IsSpace(s[0]);
    assert TrimStart(s) == s;
    assert s[0] != '-' && s[0] != '+';
    DigitPrefixOfDigits(s);
    assert DigitPrefix(s) == s;
  }

  /** A string without a decimal digit parses as NaN. */
  lemma ParseIntWithoutDigits(s: string)
    ensures (forall i :: 0 <= i < |s| ==> !IsDigit(s[i])) ==> ParseInt(s) == None
  {
    if forall i :: 0 <= i < |s| ==> !IsDigit(s[i]) {
      var t := TrimStart(s);
      var body := if |t| > 0 && (t[0] == '-' || t[0] == '+') then t[1..] else t;
      assert body == s[|s| - |body|..];
      if |DigitPrefix(body)| > 0 {
        assert IsDigit(body[0]);
        assert body[0] == s[|s| - |body|];
      }
    }
  }

  /** A run of zeros has the value 0. */
  lemma {:induction false} DigitsValueOfZeros(d: string)
    requires forall i :: 0 <= i < |d| ==> d[i] == '0'
    ensures forall i :: 0 <= i < |d| ==> IsDigit(d[i])
    ensures DigitsValue(d) == 0
  {
    if |d| > 0 {
      DigitsValueOfZeros(d[..|d| - 1]);
    }
  }

  /** `parseInt` reads back the decimal form of every natural number, so a
      configured count written as digits is taken at face value. */
  lemma ParseIntOfNatToString(n: nat)
    ensures ParseInt(NatToString(n)) == Some(n)
  {
    ParseIntOfDigits(NatToString(n));
    DigitsValueOfNatToString(n);
  }
}
