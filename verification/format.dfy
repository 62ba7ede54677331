/**
 * fmt.Sprintf("%v", v) for the values the builder formats: header values and the values of
 * a map[string]interface{} payload. Values are a closed set of shapes; any shape other than a
 * string, an integer or a boolean carries the text that %v prints for it.
 */
module Format {

  datatype Value = StringValue(s: string) | IntValue(i: int) | BoolValue(b: bool) | OtherValue(shown: string)

  function DigitChar(d: nat): char
    requires d < 10
  {
    "0123456789"[d]
  }

  predicate IsDigit(c: char) {
    '0' <= c <= '9'
  }

  /** The decimal digits of `n`, most significant first, with no leading zero. */
  function Decimal(n: nat): (r: string)
    ensures r != [] && forall i | 0 <= i < |r| :: IsDigit(r[i])
    ensures r[0] == '0' <==> n == 0
  {
    if n < 10 then [DigitChar(n)] else Decimal(n / 10) + [DigitChar(n % 10)]
  }

  /** The number a string of decimal digits denotes. */
  function DecimalValue(s: string): nat
    requires forall i | 0 <= i < |s| :: IsDigit(s[i])
  {
    if s == [] then 0
    else
      assert IsDigit(s[|s| - 1]);
      10 * DecimalValue(s[..|s| - 1]) + (s[|s| - 1] as int - '0' as int)
  }

  /** Reading the digits back gives the number: the decimal rendering loses nothing. */
  lemma {:induction false} DecimalRoundTrip(n: nat)
    ensures DecimalValue(Decimal(n)) == n
  {
    if n >= 10 {
      DecimalRoundTrip(n / 10);
      var r := Decimal(n);
      assert r[..|r| - 1] == Decimal(n / 10);
    }
  }

  /** %v: a string as it is, an integer in decimal with a leading '-' when negative, a boolean
      as "true" or "false". */
  function Sprint(v: Value): (r: string)
    ensures v.IntValue? ==> r != [] && (r[0] == '-' <==> v.i < 0)
    ensures v.IntValue? ==> forall i | 0 <= i < |r| :: IsDigit(r[i]) || (i == 0 && r[i] == '-')
    ensures v.IntValue? && v.i >= 0 ==> DecimalValue(r) == v.i
    ensures v.IntValue? && v.i < 0 ==> DecimalValue(r[1..]) == -v.i
    ensures v.StringValue? ==> r == v.s
  {
    match v
    case StringValue(s) => s
    case IntValue(i) =>
      DecimalRoundTrip(if i < 0 then -i else i);
      if i < 0 then "-" + Decimal(-i) else Decimal(i)
    case BoolValue(b) => if b then "true" else "false"
    case OtherValue(shown) => shown
  }
}
