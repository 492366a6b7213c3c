/** JavaScript's `parseInt(text, 10)`, which the routes apply to the `limit` query parameter. */
module JsParse {

  /** What `parseInt` returns: an integer, or NaN when no digit follows the optional sign. */
  datatype ParsedInt = NaN | Int(value: int)

  /** The characters `parseInt` skips before the number: JavaScript's white space and line terminators. */
  predicate IsWhiteSpace(c: char)
  {
    || c == ' ' || c == '\t' || c == '\n' || c == '\r'
    || c as int == 0x0B || c as int == 0x0C || c as int == 0xA0 || c as int == 0xFEFF
    || c as int == 0x1680 || 0x2000 <= c as int <= 0x200A || c as int == 0x2028 || c as int == 0x2029
    || c as int == 0x202F || c as int == 0x205F || c as int == 0x3000
  }

  predicate IsDigit(c: char)
  {
    '0' as int <= c as int <= '9' as int
  }

  /** The text after its leading white space. */
  function TrimStart(s: string): (r: string)
    ensures |r| <= |s|
    ensures |r| > 0 ==> !IsWhiteSpace(r[0])
  {
    if |s| > 0 && IsWhiteSpace(s[0]) then TrimStart(s[1..]) else s
  }

  /** The number of decimal digits at the start of `s`. */
  function DigitRun(s: string): (n: nat)
    ensures n <= |s|
    ensures forall i :: 0 <= i < n ==> IsDigit(s[i])
    ensures n < |s| ==> !IsDigit(s[n])
  {
    if |s| > 0 && IsDigit(s[0]) then 1 + DigitRun(s[1..]) else 0
  }

  /** The value of a string of decimal digits, most significant first. */
  function DigitsValue(d: string): nat
    requires forall i :: 0 <= i < |d| ==> IsDigit(d[i])
  {
    if |d| == 0 then 0
    else
      assert IsDigit(d[|d| - 1]);
      DigitsValue(d[..|d| - 1]) * 10 + (d[|d| - 1] as int - '0' as int)
  }

  /** The digits at the start of `s`, read as a number; NaN when there are none. */
  function ParseDigits(s: string): ParsedInt
  {
    var n := DigitRun(s);
    if n == 0 then NaN else Int(DigitsValue(s[..n]))
  }

  /**
   * `parseInt(s, 10)`: skip leading white space, take an optional sign, then read the
   * longest run of decimal digits and ignore whatever follows it.
   */
  function ParseInt(s: string): ParsedInt
  {
    var t := TrimStart(s);
    if |t| > 0 && t[0] == '-' then
      match ParseDigits(t[1..])
      case NaN => NaN
      case Int(v) => Int(-v)
    else if |t| > 0 && t[0] == '+' then ParseDigits(t[1..])
    else ParseDigits(t)
  }

  /** The decimal digits of `n`, most significant first, without leading zeros. */
  function Digits(n: nat): (d: string)
    ensures |d| > 0
    ensures forall i :: 0 <= i < |d| ==> IsDigit(d[i])
  {
    if n < 10 then [('0' as int + n) as char]
    else Digits(n / 10) + [('0' as int + n % 10) as char]
  }

  /** JavaScript's `String(n)` for an integer. */
  function DecimalText(n: int): string
  {
    if n < 0 then "-" + Digits(-n) else Digits(n)
  }

  lemma {:induction false} DigitsValueOfDigits(n: nat)
    ensures DigitsValue(Digits(n)) == n
  {
    if n >= 10 {
      var d := Digits(n);
      var front := Digits(n / 10);
      assert d[..|d| - 1] == front;
      DigitsValueOfDigits(n / 10);
    }
  }

  lemma {:induction false} DigitRunOfDigits(d: string, rest: string)
    requires forall i :: 0 <= i < |d| ==> IsDigit(d[i])
    requires rest == [] || !IsDigit(rest[0])
    ensures DigitRun(d + rest) == |d|
  {
    if |d| > 0 {
      assert (d + rest)[1..] == d[1..] + rest;
      DigitRunOfDigits(d[1..], rest);
    } else {
      assert d + rest == rest;
    }
  }

  lemma ParseDigitsOfDigits(m: nat, rest: string)
    requires rest == [] || !IsDigit(rest[0])
    ensures ParseDigits(Digits(m) + rest) == Int(m)
  {
    var d := Digits(m);
    DigitRunOfDigits(d, rest);
    DigitsValueOfDigits(m);
    assert (d + rest)[..|d|] == d;
  }

  /** Text that does not start with white space is its own `TrimStart`. */
  lemma TrimStartKeeps(s: string)
    requires |s| > 0 && !IsWhiteSpace(s[0])
    ensures TrimStart(s) == s
  {
  }

  /**
   * `parseInt` reads back the decimal text of any integer, and stops at the first
   * character after it that is not a digit.
   */
  lemma ParseIntDecimal(n: int, rest: string)
    requires rest == [] || !IsDigit(rest[0])
    ensures ParseInt(DecimalText(n) + rest) == Int(n)
  {
    if n < 0 {
      ParseIntNegative(-n, rest);
      assert DecimalText(n) + rest == "-" + (Digits(-n) + rest);
    } else {
      ParseIntNonNegative(n, rest);
    }
  }

  lemma ParseIntNegative(m: nat, rest: string)
    requires rest == [] || !IsDigit(rest[0])
    ensures ParseInt("-" + (Digits(m) + rest)) == Int(-(m as int))
  {
    var d := Digits(m) + rest;
    ParseDigitsOfDigits(m, rest);
    var s := "-" + d;
    TrimStartKeeps(s);
    assert s[1..] == d;
  }

  lemma ParseIntNonNegative(m: nat, rest: string)
    requires rest == [] || !IsDigit(rest[0])
    ensures ParseInt(Digits(m) + rest) == Int(m)
  {
    var s := Digits(m) + rest;
    ParseDigitsOfDigits(m, rest);
    assert IsDigit(s[0]);
    TrimStartKeeps(s);
  }

  /** Leading white space does not change what `parseInt` reads. */
  lemma ParseIntSkipsWhiteSpace(ws: string, s: string)
    requires forall i :: 0 <= i < |ws| ==> IsWhiteSpace(ws[i])
    ensures ParseInt(ws + s) == ParseInt(s)
    decreases |ws|
  {
    if |ws| > 0 {
      assert (ws + s)[1..] == ws[1..] + s;
      ParseIntSkipsWhiteSpace(ws[1..], s);
    } else {
      assert ws + s == s;
    }
  }

  /**
   * `parseInt` gives NaN when, after the leading white space and an optional sign, the text
   * does not start with a digit.
   */
  lemma ParseIntWithoutDigits(ws: string, sign: string, rest: string)
    requires forall i :: 0 <= i < |ws| ==> IsWhiteSpace(ws[i])
    requires sign == "" || sign == "-" || sign == "+"
    requires rest == [] || !IsDigit(rest[0])
    requires sign == "" && rest != [] ==> !IsWhiteSpace(rest[0]) && rest[0] != '-' && rest[0] != '+'
    ensures ParseInt(ws + sign + rest) == NaN
  {
    assert ws + sign + rest == ws + (sign + rest);
    ParseIntSkipsWhiteSpace(ws, sign + rest);
    var t := sign + rest;
    assert TrimStart(t) == t;
    if sign != "" {
      assert t[1..] == rest;
    } else {
      assert t == rest;
    }
  }
}
