/**
 * The decoded body of a broker message, as `json.loads` hands it to the
 * callback, and the two things the callback does with a field value:
 * format it into text (an f-string, i.e. Python's `str()`) and test its
 * truthiness.
 */
module Payload {

  /**
   * A JSON field value after decoding. Floats and nested arrays/objects are
   * not formatted by this model: they carry the text Python's `str()` gives
   * them.
   */
  datatype Value =
    | Null
    | Bool(b: bool)
    | Int(i: int)
    | Float(text: string)
    | Str(s: string)
    | Container(text: string)

  /** What `json.loads(body)` produced: an error, a non-object, or an object. */
  datatype Body =
    | Unparsable
    | NotAnObject
    | Object(fields: map<string, Value>)

  function Digit(d: nat): (c: char)
    requires d < 10
    ensures '0' <= c <= '9'
    ensures c == '0' <==> d == 0
  {
    "0123456789"[d]
  }

  function DigitValue(c: char): nat
  {
    if '0' <= c <= '9' then (c - '0') as nat else 0
  }

  /** Decimal digits of `n` without leading zeros, as `str(n)` writes them. */
  function Decimal(n: nat): (s: string)
    ensures |s| > 0
    ensures forall i :: 0 <= i < |s| ==> '0' <= s[i] <= '9'
    ensures s[0] == '0' <==> n == 0
    decreases n
  {
    if n < 10 then [Digit(n)] else Decimal(n / 10) + [Digit(n % 10)]
  }

  /** The number a string of decimal digits denotes. */
  function DecimalValue(s: string): nat
    decreases |s|
  {
    if |s| == 0 then 0 else DecimalValue(s[..|s| - 1]) * 10 + DigitValue(s[|s| - 1])
  }

  /** Reading the digits back gives the number. */
  lemma {:induction false} DecimalRoundTrip(n: nat)
    ensures DecimalValue(Decimal(n)) == n
    decreases n
  {
    var s := Decimal(n);
    if n < 10 {
      assert s[..0] == [];
    } else {
      DecimalRoundTrip(n / 10);
      assert s[..|s| - 1] == Decimal(n / 10);
    }
  }

  /** The integer an optionally signed run of decimal digits denotes (`int(s)`). */
  function IntValue(s: string): int
  {
    if |s| > 0 && s[0] == '-' then -(DecimalValue(s[1..]) as int) else DecimalValue(s)
  }

  /**
   * Python's `str(i)`: the decimal digits, with a leading `-` exactly when
   * `i` is negative and no leading zero; it reads back as `i`.
   */
  function FormatInt(i: int): (s: string)
    ensures IntValue(s) == i
    ensures |s| > 0 && (s[0] == '-' <==> i < 0)
    ensures i != 0 ==> s[if i < 0 then 1 else 0] != '0'
  {
    if i < 0 then
      SignedRead(-i);
      "-" + Decimal(-i)
    else
      UnsignedRead(i);
      Decimal(i)
  }

  lemma UnsignedRead(n: nat)
    ensures IntValue(Decimal(n)) == n
  {
    DecimalRoundTrip(n);
  }

  lemma SignedRead(n: nat)
    ensures IntValue("-" + Decimal(n)) == -(n as int)
  {
    var s := "-" + Decimal(n);
    assert s[1..] == Decimal(n);
    DecimalRoundTrip(n);
  }

  /** Python's `str(v)` for a decoded JSON value; integers as `FormatInt` writes them. */
  function Format(v: Value): (s: string)
    ensures v.Int? ==> IntValue(s) == v.i
    ensures v.Str? ==> s == v.s
  {
    match v
    case Null => "None"
    case Bool(b) => if b then "True" else "False"
    case Int(i) => FormatInt(i)
    case Float(text) => text
    case Str(s) => s
    case Container(text) => text
  }

  /**
   * The values Python's `bool()` maps to `False`: `None`, `False`, zero,
   * the empty string, and the empty list and dictionary.
   */
  const Falsy: set<Value> :=
    {Null, Bool(false), Int(0), Float("0.0"), Float("-0.0"), Str(""), Container("[]"), Container("{}")}

  /** Python's `bool(v)`. */
  predicate Truthy(v: Value)
  {
    match v
    case Null => false
    case Bool(b) => b
    case Int(i) => i != 0
    case Float(text) => text != "0.0" && text != "-0.0"
    case Str(s) => s != ""
    case Container(text) => text != "[]" && text != "{}"
  }

  /** A value is truthy exactly when it is not one of the falsy constants. */
  lemma TruthyIffNotFalsy(v: Value)
    ensures Truthy(v) <==> v !in Falsy
  {
  }

  /** Python's `data.get(key)`: the value, or `None` when the key is absent. */
  function Get(fields: map<string, Value>, key: string): Value
  {
    if key in fields then fields[key] else Null
  }
}
