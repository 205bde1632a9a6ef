/**
 * The dynamically typed values stored in entities and rows, and the three
 * JavaScript coercions the core relies on: property lookup (a missing key reads
 * as `undefined`), truthiness (`if (x)`), and `Number(x)` followed by `===`.
 */
module Values {
  import opened Results

  /** A JavaScript value. Numbers are integers; `NaN` is its own case. */
  datatype Value =
    | Undefined
    | Null
    | NaN
    | Bool(b: bool)
    | Num(n: int)
    | Str(s: string)
    | Obj(fields: map<string, Value>)

  /** An entity (a row): field names mapped to values. A key mapped to `Null`
      is present; a key that is not in the map is absent. */
  type Entity = map<string, Value>

  /** `entity[key]`: an absent key reads as `undefined`. */
  function Lookup(e: Entity, key: string): Value
  {
    if key in e then e[key] else Undefined
  }

  /** JavaScript truthiness: `undefined`, `null`, `NaN`, `false`, `0` and `""` are falsy. */
  predicate Truthy(v: Value)
  {
    match v
    case Undefined => false
    case Null => false
    case NaN => false
    case Bool(b) => b
    case Num(n) => n != 0
    case Str(s) => s != ""
    case Obj(_) => true
  }

  predicate IsDigit(c: char)
  {
    '0' <= c <= '9'
  }

  predicate IsDecimal(s: string)
  {
    |s| > 0 && forall i :: 0 <= i < |s| ==> IsDigit(s[i])
  }

  /** The value of a string of decimal digits, most significant first. */
  function DecimalValue(s: string): nat
    requires forall i :: 0 <= i < |s| ==> IsDigit(s[i])
  {
    if s == [] then 0
    else
      assert IsDigit(s[|s| - 1]);
      DecimalValue(s[..|s| - 1]) * 10 + (s[|s| - 1] as int - '0' as int)
  }

  /** `Number(v)`, with `None` standing for `NaN`. */
  function ToNumber(v: Value): Option<int>
  {
    match v
    case Undefined => None
    case Null => Some(0)
    case NaN => None
    case Bool(b) => Some(if b then 1 else 0)
    case Num(n) => Some(n)
    case Str(s) =>
      if s == "" then Some(0)
      else if IsDecimal(s) then Some(DecimalValue(s))
      else None
    case Obj(_) => None
  }

  /** `Number(a) === Number(b)`: `NaN` equals nothing, itself included. */
  predicate NumericEquals(a: Value, b: Value)
  {
    ToNumber(a).Some? && ToNumber(a) == ToNumber(b)
  }

  /** Numeric equality is symmetric and transitive, but not reflexive: a value
      that coerces to `NaN` (such as a missing field) equals nothing. */
  lemma NumericEqualsIsPartialEquivalence(a: Value, b: Value, c: Value)
    ensures NumericEquals(a, b) ==> NumericEquals(b, a)
    ensures NumericEquals(a, b) && NumericEquals(b, c) ==> NumericEquals(a, c)
    ensures NumericEquals(a, a) <==> ToNumber(a).Some?
    ensures !NumericEquals(Undefined, b) && !NumericEquals(NaN, b)
  {
  }

  /** A decimal string and the number it spells compare equal: `Number("12") === Number(12)`. */
  lemma DecimalStringEqualsNumber(s: string)
    requires IsDecimal(s)
    ensures NumericEquals(Str(s), Num(DecimalValue(s)))
  {
  }

  function DigitChar(d: nat): char
    requires d < 10
  {
    ('0' as int + d) as char
  }

  /** The decimal digits of `n`, as `String(n)` writes them. */
  function NatToDecimal(n: nat): (r: string)
    ensures forall i :: 0 <= i < |r| ==> IsDigit(r[i])
    ensures |r| > 0
  {
    if n < 10 then [DigitChar(n)] else NatToDecimal(n / 10) + [DigitChar(n % 10)]
  }

  /** `String(v)`: the property name a value is filed under when it is used as
      an object key, as `_.groupBy` does. */
  function PropertyKey(v: Value): string
  {
    match v
    case Undefined => "undefined"
    case Null => "null"
    case NaN => "NaN"
    case Bool(b) => if b then "true" else "false"
    case Num(n) => if n < 0 then "-" + NatToDecimal(-n) else NatToDecimal(n)
    case Str(s) => s
    case Obj(_) => "[object Object]"
  }

  /** Reading back the digits `String(n)` writes gives `n`. */
  lemma {:induction false} DecimalRoundTrip(n: nat)
    ensures DecimalValue(NatToDecimal(n)) == n
  {
    if n >= 10 {
      DecimalRoundTrip(n / 10);
      var r := NatToDecimal(n);
      assert r[..|r| - 1] == NatToDecimal(n / 10);
    }
  }

  /** `Number(String(n)) === n` for a non-negative number, and a number and its
      decimal string are filed under the same property name. */
  lemma NumberStringRoundTrip(n: nat)
    ensures ToNumber(Str(PropertyKey(Num(n)))) == Some(n)
    ensures PropertyKey(Num(n)) == PropertyKey(Str(NatToDecimal(n)))
  {
    DecimalRoundTrip(n);
  }
}
