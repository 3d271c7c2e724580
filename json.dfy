/**
 * JavaScript values as the validators of this program see them: what
 * `JSON.parse` (on the client) or the JSON body parser (on the server) can
 * produce, plus `undefined` for a property that is absent.
 */
module Json {

  /** A JavaScript value. Numbers are finite (JSON has no NaN or Infinity). */
  datatype Value =
    | Undefined
    | Null
    | Bool(b: bool)
    | Number(n: real)
    | Str(s: string)
    | Array(items: seq<Value>)
    | Object(fields: map<string, Value>)

  /** `fields[key]`, or `undefined` when the property is absent. */
  function Member(fields: map<string, Value>, key: string): Value
  {
    if key in fields then fields[key] else Undefined
  }

  /**
   * Property access `v.key` for the property names this program reads
   * (`name`, `endTime`, `options`, `votes`, `polls`, ...): none of them is an
   * array index, `length` or a member of Object.prototype, so only an object's
   * own fields can supply them.
   */
  function Get(v: Value, key: string): Value
  {
    if v.Object? then Member(v.fields, key) else Undefined
  }

  /** The character of decimal digit `d`. */
  function DigitChar(d: nat): (c: char)
    requires d < 10
    ensures '0' <= c <= '9'
  {
    (48 + d) as char
  }

  /** The number a string of decimal digits spells. */
  function DigitsValue(s: string): nat
    requires forall i :: 0 <= i < |s| ==> '0' <= s[i] <= '9'
  {
    if s == [] then 0 else 10 * DigitsValue(s[..|s| - 1]) + (s[|s| - 1] as int - 48)
  }

  /** The decimal text of `n`, as `String(n)` prints a non-negative integer. */
  function NatText(n: nat): (r: string)
    ensures 1 <= |r|
    ensures forall i :: 0 <= i < |r| ==> '0' <= r[i] <= '9'
    ensures DigitsValue(r) == n
    ensures n < 10 <==> |r| == 1
  {
    if n < 10 then [DigitChar(n)]
    else
      var t := NatText(n / 10) + [DigitChar(n % 10)];
      assert t[..|t| - 1] == NatText(n / 10);
      t
  }

  /** Different numbers print differently, so decimal array indices name distinct entries. */
  lemma NatTextInjective(a: nat, b: nat)
    ensures NatText(a) == NatText(b) ==> a == b
  {
  }

  /** No two indices of an array print the same. */
  lemma NatTextIsInjective()
    ensures forall a: nat, b: nat :: NatText(a) == NatText(b) ==> a == b
  {
    forall a: nat, b: nat
      ensures NatText(a) == NatText(b) ==> a == b
    {
      NatTextInjective(a, b);
    }
  }

  /** The decimal text of an integer, with a leading '-' when negative. */
  function IntText(i: int): string
  {
    if i < 0 then "-" + NatText(-i) else NatText(i)
  }

  /** Up to `fuel` decimal digits of a fraction in [0, 1), stopping when it is exhausted. */
  function FractionDigits(f: real, fuel: nat): string
    requires 0.0 <= f < 1.0
    decreases fuel
  {
    if f == 0.0 || fuel == 0 then ""
    else
      var d := (f * 10.0).Floor;
      [DigitChar(d)] + FractionDigits(f * 10.0 - d as real, fuel - 1)
  }

  /** The text of a number: integers exactly, fractions as their decimal expansion. */
  function NumberText(r: real): string
  {
    if r.Floor as real == r then IntText(r.Floor)
    else
      var a := if r < 0.0 then -r else r;
      (if r < 0.0 then "-" else "") + NatText(a.Floor) + "." + FractionDigits(a - a.Floor as real, 17)
  }

  /**
   * `String(v)`, the text a template literal `${v}` inserts: arrays join their
   * elements with ',' (null and undefined elements print as nothing), plain
   * objects print as "[object Object]".
   */
  function Show(v: Value): string
    decreases v
  {
    match v
    case Undefined => "undefined"
    case Null => "null"
    case Bool(b) => if b then "true" else "false"
    case Number(n) => NumberText(n)
    case Str(s) => s
    case Array(items) => ShowJoined(v, 0)
    case Object(_) => "[object Object]"
  }

  /** `items.slice(from).join(",")` for the array `arr`. */
  function ShowJoined(arr: Value, from: nat): string
    requires arr.Array? && from <= |arr.items|
    decreases arr, |arr.items| - from
  {
    if from == |arr.items| then ""
    else
      var x := arr.items[from];
      var text := if x.Null? || x.Undefined? then "" else Show(x);
      if from + 1 == |arr.items| then text else text + "," + ShowJoined(arr, from + 1)
  }
}
