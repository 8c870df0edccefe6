/**
 * The JavaScript view of a Firestore field value, as far as the notifier
 * inspects it: truthiness (for `||` defaults and `if (!x)` guards), strict
 * equality (structural on these primitives) and template-literal rendering.
 * A field that is not present in the document reads as `Undefined`.
 */
module JsValues {

  /** `Int` stands for an integral JavaScript number of magnitude at most 2^53. */
  datatype Value = Undefined | Null | Bool(b: bool) | Int(i: int) | Text(s: string)

  /** JavaScript truthiness: `undefined`, `null`, `false`, `0` and `""` are falsy. */
  predicate Truthy(v: Value) {
    match v
    case Undefined => false
    case Null => false
    case Bool(b) => b
    case Int(i) => i != 0
    case Text(s) => s != ""
  }

  /** The value of the JavaScript expression `a || b`. */
  function Or(a: Value, b: Value): Value {
    if Truthy(a) then a else b
  }

  /** `${v}` in a template literal. */
  function Render(v: Value): string {
    match v
    case Undefined => "undefined"
    case Null => "null"
    case Bool(b) => if b then "true" else "false"
    case Int(i) => IntToDecimal(i)
    case Text(s) => s
  }

  predicate IsDigit(c: char) {
    '0' <= c <= '9'
  }

  function Digit(d: nat): (c: char)
    requires d < 10
    ensures IsDigit(c) && (c as int) - ('0' as int) == d
  {
    "0123456789"[d]
  }

  /** Decimal digits of `n`, most significant first, without leading zeros. */
  function NatToDecimal(n: nat): (s: string)
    ensures |s| >= 1
    ensures AllDigits(s)
    ensures s[0] == '0' ==> n == 0 && s == "0"
    decreases n
  {
    if n < 10 then [Digit(n)] else NatToDecimal(n / 10) + [Digit(n % 10)]
  }

  /** The number a string of decimal digits denotes. */
  function DecimalValue(s: string): nat
    requires AllDigits(s)
    decreases |s|
  {
    if s == [] then 0
    else
      assert IsDigit(s[|s| - 1]);
      DecimalValue(s[..|s| - 1]) * 10 + ((s[|s| - 1] as int) - ('0' as int))
  }

  predicate AllDigits(s: string) {
    forall k :: 0 <= k < |s| ==> IsDigit(s[k])
  }

  /** A decimal integer as JavaScript writes one: digits, optionally after a minus sign. */
  predicate IsIntegerText(s: string) {
    if |s| >= 1 && s[0] == '-' then |s| >= 2 && AllDigits(s[1..]) else |s| >= 1 && AllDigits(s)
  }

  /** How JavaScript renders an integral number of magnitude at most 2^53. */
  function IntToDecimal(i: int): string {
    if i < 0 then "-" + NatToDecimal(-i) else NatToDecimal(i)
  }

  /** The number a rendered integer denotes. */
  function ParseInteger(s: string): int
    requires IsIntegerText(s)
  {
    if s[0] == '-' then -(DecimalValue(s[1..]) as int) else DecimalValue(s)
  }

  lemma {:induction false} NatToDecimalRoundTrip(n: nat)
    ensures DecimalValue(NatToDecimal(n)) == n
    decreases n
  {
    var s := NatToDecimal(n);
    if n >= 10 {
      NatToDecimalRoundTrip(n / 10);
      assert s[..|s| - 1] == NatToDecimal(n / 10);
    }
  }

  /** Rendering an integer loses nothing: the decimal text reads back as the same number. */
  lemma IntToDecimalRoundTrip(i: int)
    ensures IsIntegerText(IntToDecimal(i)) && ParseInteger(IntToDecimal(i)) == i
  {
    var s := IntToDecimal(i);
    if i < 0 {
      var t := NatToDecimal(-i);
      NatToDecimalRoundTrip(-i);
      assert s == "-" + t && s[0] == '-' && s[1..] == t;
      assert AllDigits(s[1..]);
    } else {
      var t := NatToDecimal(i);
      NatToDecimalRoundTrip(i);
      assert s == t && IsDigit(s[0]) && s[0] != '-';
    }
  }
}
