/**
 * The slice of JavaScript value semantics that the extension's property handling relies on:
 * JSON-shaped values plus `undefined`, truthiness, member access (throwing on `null` and
 * `undefined`, or optional-chained), and conversion to a string.
 */
module Json {

  /** A JavaScript value as it arrives from the Notion API or from local storage. */
  datatype Json =
    | Undefined
    | Null
    | Bool(b: bool)
    | Num(n: int)
    | Str(s: string)
    | Arr(items: seq<Json>)
    | Obj(fields: map<string, Json>)

  /** The result of evaluating an expression that may throw a `TypeError`. */
  datatype Completion<+T> = Normal(value: T) | TypeError

  /** `null` or `undefined`: the values on which plain member access throws. */
  predicate Nullish(v: Json) {
    v.Undefined? || v.Null?
  }

  /** JavaScript truthiness: `undefined`, `null`, `false`, `0` and `""` are falsy; arrays and objects are truthy, even when empty. */
  predicate Truthy(v: Json) {
    match v
    case Undefined => false
    case Null => false
    case Bool(b) => b
    case Num(n) => n != 0
    case Str(s) => s != ""
    case Arr(_) => true
    case Obj(_) => true
  }

  predicate IsDigit(c: char) {
    '0' <= c <= '9'
  }

  /** The decimal value of a string of digits (other characters count as 0). */
  function DecimalValue(s: string): nat {
    if |s| == 0 then 0
    else DecimalValue(s[..|s| - 1]) * 10 + (if IsDigit(s[|s| - 1]) then (s[|s| - 1] - '0') as nat else 0)
  }

  /** 2^32 - 1: array indices are the canonical decimal strings below this bound. */
  const ArrayIndexBound: nat := 4294967295

  /** `key` is an array index: a canonical decimal numeral (no sign, no leading zero) below 2^32 - 1. */
  predicate IsArrayIndex(key: string) {
    && |key| > 0
    && (forall i :: 0 <= i < |key| ==> IsDigit(key[i]))
    && (key[0] != '0' || |key| == 1)
    && DecimalValue(key) < ArrayIndexBound
  }

  /** `v?.[key]`: the member `key` of `v`, or `undefined` when `v` is `null`/`undefined` or has no such member. */
  function Get(v: Json, key: string): (r: Json)
    ensures Nullish(v) ==> r == Undefined
    ensures v.Obj? ==> r == (if key in v.fields then v.fields[key] else Undefined)
  {
    match v
    case Obj(fields) => if key in fields then fields[key] else Undefined
    case Arr(items) =>
      if IsArrayIndex(key) && DecimalValue(key) < |items| then items[DecimalValue(key)] else Undefined
    case Str(s) =>
      if IsArrayIndex(key) && DecimalValue(key) < |s| then Str([s[DecimalValue(key)]]) else Undefined
    case _ => Undefined
  }

  /** `v[key]`: plain member access, which throws on `null` and `undefined`. */
  function Member(v: Json, key: string): (r: Completion<Json>)
    ensures r.TypeError? <==> Nullish(v)
    ensures r.Normal? ==> r.value == Get(v, key)
  {
    if Nullish(v) then TypeError else Normal(Get(v, key))
  }

  function DigitChar(d: nat): char
    requires d < 10
  {
    ['0', '1', '2', '3', '4', '5', '6', '7', '8', '9'][d]
  }

  /** The decimal numeral of `n`, without leading zeros. */
  function NatToDecimal(n: nat): (r: string)
    ensures |r| > 0
    ensures forall i :: 0 <= i < |r| ==> IsDigit(r[i])
    ensures DecimalValue(r) == n
    ensures |r| == 1 || r[0] != '0'
    ensures r[0] == '0' <==> n == 0
    decreases n
  {
    var last := DigitChar(n % 10);
    if n < 10 then
      assert [last][..0] == [];
      [last]
    else
      var front := NatToDecimal(n / 10);
      var r := front + [last];
      assert r[..|r| - 1] == front;
      assert r[0] == front[0];
      r
  }

  /** `String(n)` for an integral number. */
  function IntToDecimal(n: int): string {
    if n < 0 then "-" + NatToDecimal(-n) else NatToDecimal(n)
  }

  /** The text an array contributes for one element when joined: `""` for `null`/`undefined`. */
  function ElementText(v: Json): string
    decreases v, 2
  {
    if Nullish(v) then "" else ToStr(v)
  }

  /** Concatenates `parts` with `sep` between neighbours. */
  function JoinStrings(parts: seq<string>, sep: string): string {
    if |parts| == 0 then ""
    else if |parts| == 1 then parts[0]
    else parts[0] + sep + JoinStrings(parts[1..], sep)
  }

  /** `items.join(sep)` for an array of JavaScript values. */
  function JoinValues(items: seq<Json>, sep: string): string
    decreases Arr(items), 0
  {
    JoinStrings(seq(|items|, i requires 0 <= i < |items| => ElementText(items[i])), sep)
  }

  /** `String(v)`: JavaScript's conversion of a value to a string (also used for property keys). */
  function ToStr(v: Json): string
    decreases v, 1
  {
    match v
    case Undefined => "undefined"
    case Null => "null"
    case Bool(b) => if b then "true" else "false"
    case Num(n) => IntToDecimal(n)
    case Str(s) => s
    case Arr(items) => JoinValues(items, ",")
    case Obj(_) => "[object Object]"
  }
}
