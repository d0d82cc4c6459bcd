/**
 * JavaScript numbers as the configuration tests produce them: `parseInt(s)`
 * (no radix), `n + i` and `n.toString()`. The values involved are either NaN
 * or integers; integers are unbounded here.
 */
module JsNumbers {
  import opened JsStrings

  datatype Number = NaN | Int(value: int)

  /** `a < b`: false whenever either side is NaN. */
  predicate Less(a: Number, b: Number) {
    a.Int? && b.Int? && a.value < b.value
  }

  /** `a + i`. */
  function Plus(a: Number, i: int): Number {
    match a
    case NaN => NaN
    case Int(v) => Int(v + i)
  }

  predicate IsDecimalDigit(c: char) {
    '0' <= c <= '9'
  }

  /** A digit of radix 16 when `hex`, of radix 10 otherwise. */
  predicate IsDigit(c: char, hex: bool) {
    IsDecimalDigit(c) || (hex && ('a' <= c <= 'f' || 'A' <= c <= 'F'))
  }

  function DigitValue(c: char): (d: nat)
    requires IsDigit(c, true)
    ensures d < 16
    ensures IsDecimalDigit(c) ==> d < 10
  {
    if IsDecimalDigit(c) then c as int - '0' as int
    else if 'a' <= c <= 'f' then c as int - 'a' as int + 10
    else c as int - 'A' as int + 10
  }

  predicate AllDigits(s: string, hex: bool) {
    forall i :: 0 <= i < |s| ==> IsDigit(s[i], hex)
  }

  /** The length of the longest prefix of `s` made of digits. */
  function DigitPrefixLength(s: string, hex: bool): (k: nat)
    ensures k <= |s|
  {
    if s == [] || !IsDigit(s[0], hex) then 0 else 1 + DigitPrefixLength(s[1..], hex)
  }

  /** The prefix DigitPrefixLength measures is all digits, and no digit follows it. */
  lemma {:induction false} DigitPrefixIsLongest(s: string, hex: bool)
    ensures var k := DigitPrefixLength(s, hex);
            AllDigits(s[..k], hex) && (k < |s| ==> !IsDigit(s[k], hex))
  {
    if s != [] && IsDigit(s[0], hex) {
      DigitPrefixIsLongest(s[1..], hex);
      var k := DigitPrefixLength(s, hex);
      assert forall i :: 1 <= i < k ==> s[..k][i] == s[1..][..k - 1][i - 1];
    }
  }

  /** The value of a digit string, most significant digit first. */
  function DigitsValue(ds: string, hex: bool): nat
    requires AllDigits(ds, hex)
  {
    if ds == [] then 0
    else DigitsValue(ds[..|ds| - 1], hex) * (if hex then 16 else 10) + DigitValue(ds[|ds| - 1])
  }

  /**
   * `parseInt(s)` without a radix: leading white space is skipped, one sign is
   * read, a `0x`/`0X` prefix selects radix 16, and the longest run of digits
   * that follows is the value; no digit at all gives NaN.
   */
  function ParseInt(s: string): Number {
    var t := TrimStart(s);
    var negative := |t| > 0 && t[0] == '-';
    var u := if |t| > 0 && (t[0] == '-' || t[0] == '+') then t[1..] else t;
    var hex := |u| >= 2 && u[0] == '0' && (u[1] == 'x' || u[1] == 'X');
    var w := if hex then u[2..] else u;
    var k := DigitPrefixLength(w, hex);
    if k == 0 then NaN
    else
      DigitPrefixIsLongest(w, hex);
      var m: int := DigitsValue(w[..k], hex);
      Int(if negative then -m else m)
  }

  function DecimalDigit(d: nat): (c: char)
    requires d < 10
    ensures IsDecimalDigit(c) && DigitValue(c) == d
  {
    ('0' as int + d) as char
  }

  /** The decimal numeral of `n`: digits only, and no leading zero unless it is "0". */
  function NatToString(n: nat): (r: string)
    ensures |r| > 0
    ensures AllDigits(r, false)
    ensures r[0] == '0' ==> r == "0"
  {
    if n < 10 then [DecimalDigit(n)]
    else NatToString(n / 10) + [DecimalDigit(n % 10)]
  }

  function IntToString(i: int): string {
    if i < 0 then "-" + NatToString(-i) else NatToString(i)
  }

  /** `n.toString()`. */
  function ToString(n: Number): string {
    match n
    case NaN => "NaN"
    case Int(v) => IntToString(v)
  }

  lemma {:induction false} NatToStringValue(n: nat)
    ensures DigitsValue(NatToString(n), false) == n
  {
    var r := NatToString(n);
    if n >= 10 {
      NatToStringValue(n / 10);
      assert r[..|r| - 1] == NatToString(n / 10);
    }
  }

  lemma DigitsAreNotWhiteSpace(s: string)
    requires |s| > 0 && AllDigits(s, false)
    ensures !IsWhiteSpace(s[0]) && s[0] != '-' && s[0] != '+'
  {
    assert IsDecimalDigit(s[0]);
  }

  lemma AllDigitsPrefixLength(s: string)
    requires AllDigits(s, false)
    ensures DigitPrefixLength(s, false) == |s|
  {
  }

  /** `parseInt` reads back exactly the integer that `toString` wrote. */
  lemma ParseIntOfIntToString(i: int)
    ensures ParseInt(IntToString(i)) == Int(i)
  {
    var n: nat := if i < 0 then -i else i;
    var digits := NatToString(n);
    DigitsAreNotWhiteSpace(digits);
    AllDigitsPrefixLength(digits);
    NatToStringValue(n);
    if i < 0 {
      var s := "-" + digits;
      assert !IsWhiteSpace(s[0]);
      assert TrimStart(s) == s;
      assert s[1..] == digits;
      assert digits[..|digits|] == digits;
    } else {
      assert TrimStart(digits) == digits;
      assert digits[..|digits|] == digits;
    }
  }

  /** `parseInt(n.toString())` is `n`, NaN included. */
  lemma ParseIntOfToString(n: Number)
    ensures ParseInt(ToString(n)) == n
  {
    match n
    case NaN =>
      assert DigitPrefixLength("NaN", false) == 0;
    case Int(v) =>
      ParseIntOfIntToString(v);
  }

  /** A numeral with a leading zero is never what `toString` writes back. */
  lemma LeadingZeroNotCanonical(s: string)
    requires |s| >= 2 && s[0] == '0'
    ensures ToString(ParseInt(s)) != s
  {
    var n := ParseInt(s);
    if n.Int? && n.value >= 0 {
      var r := NatToString(n.value);
      assert r[0] == '0' ==> |r| == 1;
    }
  }
}
