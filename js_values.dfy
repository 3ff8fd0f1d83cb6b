/**
 * JavaScript values as the components see them: optional properties
 * (`undefined`/`null` are both `None`), numbers with NaN, truthiness,
 * the `||` defaulting idiom, and `Number(...)` applied to a string.
 */
module JsValues {
  import JsStrings

  datatype Option<+T> = None | Some(value: T) {
    /** `x || default` when every present value is truthy. */
    function GetOr(default: T): T {
      match this
      case Some(v) => v
      case None => default
    }
  }

  /** A JavaScript number: an integer value or NaN (fractions are not modelled). */
  datatype JsNumber = Num(n: int) | NaN

  /** `!!x` for a number: 0 and NaN are falsy. */
  predicate NumberTruthy(x: JsNumber) {
    x.Num? && x.n != 0
  }

  /** `!!x` for an optional numeric id: `undefined` and 0 are falsy. */
  predicate IdTruthy(x: Option<int>) {
    x.Some? && x.value != 0
  }

  /** `x || undefined` for an optional numeric id. */
  function TruthyId(x: Option<int>): (r: Option<int>)
    ensures r.Some? <==> IdTruthy(x)
    ensures r.Some? ==> r == x
  {
    if IdTruthy(x) then x else None
  }

  /** `s || ''` for an optional string: `undefined`, `null` and `''` all give `''`. */
  function OrEmpty(s: Option<string>): string {
    s.GetOr("")
  }

  /** `n || 0` for an optional number. */
  function OrZero(n: Option<int>): int {
    n.GetOr(0)
  }

  /** `b || false` for an optional flag. */
  function OrFalse(b: Option<bool>): bool {
    b.GetOr(false)
  }

  /** A string is truthy iff it is present and non-empty. */
  predicate TextTruthy(s: Option<string>) {
    s.Some? && s.value != ""
  }

  /** `a || b` for optional strings: `a` when it is truthy, else `b`. */
  function OrElse(a: Option<string>, b: Option<string>): (r: Option<string>)
    ensures TextTruthy(a) ==> r == a
    ensures !TextTruthy(a) ==> r == b
  {
    if TextTruthy(a) then a else b
  }

  predicate IsDigit(c: char) {
    '0' <= c <= '9'
  }

  predicate AllDigits(s: string) {
    forall i :: 0 <= i < |s| ==> IsDigit(s[i])
  }

  /** The value of a string of decimal digits. */
  function DigitsValue(s: string): nat
    requires AllDigits(s)
    decreases |s|
  {
    if s == [] then 0
    else DigitsValue(s[..|s| - 1]) * 10 + (s[|s| - 1] as int - '0' as int)
  }

  /**
   * `Number(s)`: surrounding whitespace is ignored, the empty string is 0,
   * a string of decimal digits is its value; everything else here is NaN.
   */
  function ToNumber(s: string): JsNumber {
    var t := JsStrings.Trim(s);
    if t == [] then Num(0)
    else if AllDigits(t) then Num(DigitsValue(t))
    else NaN
  }

  /** `Number(id)` for an optional string id: `Number(undefined)` is NaN. */
  function IdToNumber(id: Option<string>): JsNumber {
    match id
    case None => NaN
    case Some(s) => ToNumber(s)
  }

  /** `String(n)` for a non-negative integer: its decimal digits, without leading zeros. */
  function DecimalString(n: nat): (s: string)
    ensures s != [] && AllDigits(s)
    decreases n
  {
    if n < 10 then [('0' as int + n) as char]
    else DecimalString(n / 10) + [('0' as int + n % 10) as char]
  }

  /** `Number(String(n)) === n` for every non-negative integer id. */
  lemma {:induction false} NumberOfDecimalString(n: nat)
    ensures ToNumber(DecimalString(n)) == Num(n)
  {
    var s := DecimalString(n);
    DigitsValueOfDecimal(n);
    JsStrings.TrimOfTrimmed(s);
  }

  lemma {:induction false} DigitsValueOfDecimal(n: nat)
    ensures DigitsValue(DecimalString(n)) == n
    decreases n
  {
    var s := DecimalString(n);
    if n >= 10 {
      DigitsValueOfDecimal(n / 10);
      assert s[..|s| - 1] == DecimalString(n / 10);
    }
  }
}
