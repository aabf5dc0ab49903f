/**
 * The values the dashboard script works on: rows as the CSV loader hands them
 * over (every cell a string), and the JavaScript numbers that unary `+`
 * produces from those strings.
 */
module Values {

  datatype Option<T> = None | Some(value: T)

  /** What `row[key]` yields: the cell's text, or `undefined` for a missing column. */
  datatype Cell = Undefined | Str(text: string)

  /**
   * A JavaScript number as it arises here: an integer, or NaN. Non-integer
   * numbers and the infinities are not part of this model.
   */
  datatype Number = NaN | Num(value: int)

  /** One loaded row: each header name maps to the text of its cell. */
  type Row = map<string, string>

  function Get(row: Row, key: string): Cell
  {
    if key in row then Str(row[key]) else Undefined
  }

  predicate IsDigit(c: char)
  {
    '0' <= c <= '9'
  }

  predicate AllDigits(s: string)
  {
    forall i :: 0 <= i < |s| ==> IsDigit(s[i])
  }

  /** The white space and line terminators that `Number(...)` strips from both ends. */
  predicate IsJsSpace(c: char)
  {
    var n := c as int;
    n == 0x09 || n == 0x0A || n == 0x0B || n == 0x0C || n == 0x0D || n == 0x20 ||
    n == 0xA0 || n == 0x1680 || (0x2000 <= n <= 0x200A) || n == 0x2028 ||
    n == 0x2029 || n == 0x202F || n == 0x205F || n == 0x3000 || n == 0xFEFF
  }

  function DigitValue(c: char): nat
    requires IsDigit(c)
  {
    c as int - '0' as int
  }

  function DigitChar(d: nat): char
    requires d < 10
  {
    ('0' as int + d) as char
  }

  /** The value of a decimal digit string, read left to right. */
  function DigitsValue(s: string): nat
    requires AllDigits(s)
  {
    if s == [] then 0 else DigitsValue(s[..|s| - 1]) * 10 + DigitValue(s[|s| - 1])
  }

  function Pow10(k: nat): nat
  {
    if k == 0 then 1 else 10 * Pow10(k - 1)
  }

  /** Drops leading white space: the result is a suffix of `s` and only spaces were dropped. */
  function TrimStart(s: string): (t: string)
    ensures |t| <= |s| && t == s[|s| - |t|..]
    ensures forall i :: 0 <= i < |s| - |t| ==> IsJsSpace(s[i])
    ensures t != [] ==> !IsJsSpace(t[0])
  {
    if s != [] && IsJsSpace(s[0]) then TrimStart(s[1..]) else s
  }

  /** Drops trailing white space: the result is a prefix of `s` and only spaces were dropped. */
  function TrimEnd(s: string): (t: string)
    ensures |t| <= |s| && t == s[..|t|]
    ensures forall i :: |t| <= i < |s| ==> IsJsSpace(s[i])
    ensures t != [] ==> !IsJsSpace(t[|t| - 1])
  {
    if s != [] && IsJsSpace(s[|s| - 1]) then TrimEnd(s[..|s| - 1]) else s
  }

  /**
   * Unary `+` on a string (ECMAScript StringToNumber), for decimal integer
   * literals: surrounding white space is ignored, a blank string is 0, one
   * optional sign may precede the digits, and anything else is NaN.
   */
  function ParseNumber(s: string): Number
  {
    ParseTrimmed(TrimEnd(TrimStart(s)))
  }

  /** The literal left once the white space around it is gone. */
  function ParseTrimmed(t: string): Number
  {
    if t == [] then Num(0)
    else if (t[0] == '-' || t[0] == '+') && |t| > 1 && AllDigits(t[1..]) then
      var v: int := DigitsValue(t[1..]);
      Num(if t[0] == '-' then -v else v)
    else if AllDigits(t) then Num(DigitsValue(t))
    else NaN
  }

  /** A blank cell (`+""`, `+"  "`) is 0, not NaN. */
  lemma {:induction false} ParseBlank(s: string)
    requires forall i :: 0 <= i < |s| ==> IsJsSpace(s[i])
    ensures ParseNumber(s) == Num(0)
  {
    var a := TrimStart(s);
    assert a == [];
  }

  /** A string holding a comma, such as "1,000", is NaN. */
  lemma {:induction false} ParseComma(s: string)
    requires ',' in s
    ensures ParseNumber(s) == NaN
  {
    CommaSurvivesTrimStart(s);
    CommaSurvivesTrimEnd(TrimStart(s));
    TrimmedComma(TrimEnd(TrimStart(s)));
  }

  /** A literal holding a comma is neither a digit string nor a signed one. */
  lemma TrimmedComma(t: string)
    requires ',' in t
    ensures ParseTrimmed(t) == NaN
  {
    var k :| 0 <= k < |t| && t[k] == ',';
    assert !IsDigit(t[k]);
    if k > 0 {
      assert t[1..][k - 1] == ',';
      assert !AllDigits(t[1..]);
    }
  }

  /** Dropping leading white space keeps every comma. */
  lemma CommaSurvivesTrimStart(s: string)
    requires ',' in s
    ensures ',' in TrimStart(s)
  {
    var a := TrimStart(s);
    var i :| 0 <= i < |s| && s[i] == ',';
    assert !IsJsSpace(s[i]);
    assert a[i - (|s| - |a|)] == s[|s| - |a|..][i - (|s| - |a|)];
  }

  /** Dropping trailing white space keeps every comma. */
  lemma CommaSurvivesTrimEnd(s: string)
    requires ',' in s
    ensures ',' in TrimEnd(s)
  {
    var t := TrimEnd(s);
    var i :| 0 <= i < |s| && s[i] == ',';
    assert !IsJsSpace(s[i]);
    assert t[i] == s[..|t|][i];
  }

  /** `+cell`: `+undefined` is NaN, a string is parsed. */
  function ToNumber(c: Cell): Number
  {
    match c
    case Undefined => NaN
    case Str(s) => ParseNumber(s)
  }

  /** `+row[key]` */
  function NumberAt(row: Row, key: string): Number
  {
    ToNumber(Get(row, key))
  }

  /** `"Quarterly Total_" + q`, the column of a quarter's enrolment total. */
  function TotalColumn(q: string): string
  {
    "Quarterly Total_" + q
  }

  /** The decimal digits of `n`, most significant first. */
  function NatToString(n: nat): (s: string)
    ensures AllDigits(s) && |s| >= 1
    ensures DigitsValue(s) == n
    ensures s[0] == '0' ==> n == 0
    ensures n < Pow10(|s|) && (|s| > 1 ==> Pow10(|s| - 1) <= n)
  {
    if n < 10 then [DigitChar(n)]
    else
      var p := NatToString(n / 10);
      var s := p + [DigitChar(n % 10)];
      assert s[..|s| - 1] == p;
      s
  }

  /** `n.toString()` for an integer of at most 21 digits. */
  function IntToString(n: int): (s: string)
    ensures |s| >= 1
    ensures s[0] == '-' <==> n < 0
    ensures n >= 0 ==> AllDigits(s)
    ensures n < 0 ==> AllDigits(s[1..]) && |s| >= 2
  {
    if n < 0 then "-" + NatToString(-n) else NatToString(n)
  }

  /** Parsing what `toString` printed gives the number back. */
  lemma {:induction false} ParseIntToString(n: int)
    ensures ParseNumber(IntToString(n)) == Num(n)
  {
    if n < 0 {
      var d := NatToString(-n);
      var s := "-" + d;
      assert IntToString(n) == s;
      assert ParseNumber(s) == Num(n) by {
        assert s[|s| - 1] == d[|d| - 1];
        NothingToTrim(s);
        ParseNegative(d);
      }
    } else {
      var d := NatToString(n);
      assert IntToString(n) == d;
      assert ParseNumber(d) == Num(n) by {
        NothingToTrim(d);
        ParseDigits(d);
      }
    }
  }

  /** A non-empty digit string is read as its decimal value. */
  lemma ParseDigits(d: string)
    requires AllDigits(d) && d != []
    ensures ParseTrimmed(d) == Num(DigitsValue(d))
  {
    assert IsDigit(d[0]);
  }

  /** A minus sign followed by a non-empty digit string is read as the negated value. */
  lemma ParseNegative(d: string)
    requires AllDigits(d) && d != []
    ensures var v: int := DigitsValue(d); ParseTrimmed("-" + d) == Num(-v)
  {
    var t := "-" + d;
    assert t[0] == '-' && t[1..] == d;
  }

  /** Text that starts and ends with a sign or a digit is not trimmed. */
  lemma NothingToTrim(s: string)
    requires s != []
    requires s[0] == '-' || IsDigit(s[0])
    requires IsDigit(s[|s| - 1])
    ensures TrimEnd(TrimStart(s)) == s
  {
    assert !IsJsSpace(s[0]);
    assert TrimStart(s) == s;
    assert !IsJsSpace(s[|s| - 1]);
  }

  /** `toString` of an integer below 1000 in magnitude has at most three digits, and conversely. */
  lemma {:induction false} ShortDigits(n: nat)
    ensures n < 1000 <==> |NatToString(n)| <= 3
  {
    var s := NatToString(n);
    assert Pow10(3) == 1000;
    if |s| > 3 {
      PowMonotone(3, |s| - 1);
    }
    if |s| <= 3 {
      PowMonotone(|s|, 3);
    }
  }

  lemma {:induction false} PowMonotone(i: nat, j: nat)
    requires i <= j
    ensures Pow10(i) <= Pow10(j)
  {
    if i < j {
      PowMonotone(i, j - 1);
    }
  }
}
