/**
 A JSON value as the user manager receives it from the remote endpoint or from
 local storage, together with the two JavaScript coercions the reconciler relies
 on: truthiness (`x || y`, `if (x)`) and `String(x)`.
 */
module JsValue {

  /** Objects and arrays are never looked into by the reconciler; they are carried
      with the text `String()` renders for them. Numbers are integers. */
  datatype Value =
    | Null
    | Bool(b: bool)
    | Num(n: int)
    | Str(s: string)
    | Compound(text: string)

  /** JavaScript truthiness. */
  predicate Truthy(v: Value) {
    match v
    case Null => false
    case Bool(b) => b
    case Num(n) => n != 0
    case Str(s) => s != ""
    case Compound(_) => true
  }

  predicate IsDigit(c: char) {
    '0' <= c <= '9'
  }

  predicate AllDigits(s: string) {
    forall i :: 0 <= i < |s| ==> IsDigit(s[i])
  }

  function Digit(d: nat): (c: char)
    requires d < 10
    ensures IsDigit(c)
  {
    "0123456789"[d]
  }

  function DigitValue(c: char): (d: nat)
    requires IsDigit(c)
    ensures d < 10
  {
    c as int - '0' as int
  }

  /** Decimal rendering of a natural number, as `String(n)` writes it. */
  function Decimal(n: nat): (r: string)
    ensures 1 <= |r|
    ensures AllDigits(r)
    ensures r[0] == '0' ==> n == 0
    decreases n
  {
    if n < 10 then [Digit(n)] else Decimal(n / 10) + [Digit(n % 10)]
  }

  /** The number a string of decimal digits denotes. */
  function DecimalValue(s: string): nat
    requires AllDigits(s)
    decreases |s|
  {
    if s == [] then 0 else DecimalValue(s[..|s| - 1]) * 10 + DigitValue(s[|s| - 1])
  }

  /** Reading back a rendered number gives the number. */
  lemma {:induction false} DecimalRoundTrip(n: nat)
    ensures DecimalValue(Decimal(n)) == n
    decreases n
  {
    if n >= 10 {
      var r := Decimal(n);
      DecimalRoundTrip(n / 10);
      assert r[..|r| - 1] == Decimal(n / 10);
      assert DigitValue(Digit(n % 10)) == n % 10;
    } else {
      assert DigitValue(Digit(n)) == n;
    }
  }

  /** `String(x)` for the values the model distinguishes. */
  function ToJsString(v: Value): (r: string)
    ensures v.Num? && v.n >= 0 ==> AllDigits(r) && DecimalValue(r) == v.n
    ensures v.Num? && v.n < 0 ==> |r| >= 2 && r[0] == '-' && AllDigits(r[1..]) && DecimalValue(r[1..]) == -v.n
    ensures v.Num? && v.n >= 0 ==> 1 <= |r| && (r[0] == '0' ==> |r| == 1)
    ensures v.Num? && v.n < 0 ==> r[1] != '0'
    ensures v.Str? ==> r == v.s
  {
    match v
    case Null => "null"
    case Bool(b) => if b then "true" else "false"
    case Num(n) =>
      DecimalRoundTrip(if n < 0 then -n else n);
      if n < 0 then "-" + Decimal(-n) else Decimal(n)
    case Str(s) => s
    case Compound(t) => t
  }

  /** Two numeric ids compare equal as strings exactly when they are the same number,
      so stringifying ids before comparing loses nothing for numeric ids. */
  lemma NumKeysInjective(m: int, n: int)
    ensures ToJsString(Num(m)) == ToJsString(Num(n)) <==> m == n
  {
  }
}
