/** JavaScript values as the converter meets them: table cells, truthiness and `value + ""`. */
module JsValues {

  datatype Option<+T> = None | Some(value: T)

  /** `Number.MAX_SAFE_INTEGER`, 2^53 - 1. */
  const MaxSafeInteger := 9007199254740991

  /** The integers a JavaScript number holds exactly; `+ ""` writes each of them
      in plain decimal. */
  type SafeInteger = n: int | -MaxSafeInteger <= n <= MaxSafeInteger

  /** A table cell. The host hands the converter strings, numbers, booleans,
      `null`, or `undefined` (also what reading a missing index yields).
      Numbers are restricted to safe integers. */
  datatype Cell = Undefined | Null | Text(s: string) | Number(n: SafeInteger) | Bool(b: bool)

  /** JavaScript truthiness: exactly `undefined`, `null`, `""`, `0` and `false` are falsy. */
  predicate Truthy(c: Cell)
    ensures !Truthy(c) <==> c in {Undefined, Null, Text(""), Number(0), Bool(false)}
  {
    match c
    case Undefined => false
    case Null => false
    case Text(s) => s != ""
    case Number(n) => n != 0
    case Bool(b) => b
  }

  /** `c + ""`: the string a cell turns into when concatenated with the empty string. */
  function Stringify(c: Cell): (s: string)
    ensures Truthy(c) ==> s != ""
    ensures c.Text? ==> s == c.s
    ensures c.Bool? ==> s == (if c.b then "true" else "false")
    ensures c == Undefined ==> s == "undefined"
    ensures c == Null ==> s == "null"
    ensures c.Number? ==> forall i :: 0 <= i < |s| ==> s[i] == '-' || '0' <= s[i] <= '9'
    ensures c.Number? && c.n >= 0 ==> IsDigits(s) && DecimalValue(s) == c.n
    ensures c.Number? && c.n < 0 ==> s[0] == '-' && IsDigits(s[1..]) && DecimalValue(s[1..]) == -c.n
  {
    match c
    case Undefined => "undefined"
    case Null => "null"
    case Text(s) => s
    case Number(n) => IntToDecimal(n)
    case Bool(b) => if b then "true" else "false"
  }

  function DigitChar(d: nat): (c: char)
    requires d < 10
    ensures '0' <= c <= '9'
  {
    (d + '0' as int) as char
  }

  function DigitValue(c: char): nat
    requires '0' <= c <= '9'
  {
    (c as int - '0' as int) as nat
  }

  /** Decimal notation of a natural number, without leading zeros. */
  function NatToDecimal(n: nat): (s: string)
    ensures 1 <= |s|
    ensures forall i :: 0 <= i < |s| ==> '0' <= s[i] <= '9'
    ensures 1 < |s| ==> s[0] != '0'
  {
    if n < 10 then [DigitChar(n)] else NatToDecimal(n / 10) + [DigitChar(n % 10)]
  }

  /** Decimal notation of an integer, with a leading '-' when negative. */
  function IntToDecimal(n: int): (s: string)
    ensures 1 <= |s| && forall i :: 0 <= i < |s| ==> s[i] == '-' || '0' <= s[i] <= '9'
    ensures n >= 0 ==> IsDigits(s) && DecimalValue(s) == n
    ensures n < 0 ==> s[0] == '-' && IsDigits(s[1..]) && DecimalValue(s[1..]) == -n
  {
    if n < 0 then
      DecimalRoundTrip(-n);
      assert ("-" + NatToDecimal(-n))[1..] == NatToDecimal(-n);
      "-" + NatToDecimal(-n)
    else
      DecimalRoundTrip(n);
      NatToDecimal(n)
  }

  /** Every character is a decimal digit. */
  predicate IsDigits(s: string)
  {
    forall i :: 0 <= i < |s| ==> '0' <= s[i] <= '9'
  }

  /** The number a string of decimal digits denotes. */
  function DecimalValue(s: string): nat
    requires IsDigits(s)
  {
    if s == [] then 0 else 10 * DecimalValue(s[..|s| - 1]) + DigitValue(s[|s| - 1])
  }

  /** Reading the digits back gives the number that was written. */
  lemma {:induction false} DecimalRoundTrip(n: nat)
    ensures DecimalValue(NatToDecimal(n)) == n
  {
    var s := NatToDecimal(n);
    if n < 10 {
      assert s[..|s| - 1] == [];
    } else {
      DecimalRoundTrip(n / 10);
      assert s[..|s| - 1] == NatToDecimal(n / 10);
      assert DigitValue(s[|s| - 1]) == n % 10;
    }
  }

  /** A negative number's text starts with '-', a natural number's with a digit. */
  lemma SignVisible(m: int, n: int)
    requires m < 0 <= n
    ensures IntToDecimal(m) != IntToDecimal(n)
  {
    assert IntToDecimal(m)[0] == '-';
  }

  lemma NatToDecimalInjective(m: nat, n: nat)
    requires NatToDecimal(m) == NatToDecimal(n)
    ensures m == n
  {
    DecimalRoundTrip(m);
    DecimalRoundTrip(n);
  }

  /** Two different integers never stringify to the same text, so numeric cells
      that differ become different node ids. */
  lemma IntToDecimalInjective(m: int, n: int)
    requires IntToDecimal(m) == IntToDecimal(n)
    ensures m == n
  {
    if m < 0 && n < 0 {
      assert NatToDecimal(-m) == IntToDecimal(m)[1..];
      assert NatToDecimal(-n) == IntToDecimal(n)[1..];
      NatToDecimalInjective(-m, -n);
    } else if m >= 0 && n >= 0 {
      NatToDecimalInjective(m, n);
    } else if m < 0 {
      SignVisible(m, n);
    } else {
      SignVisible(n, m);
    }
  }
}
