/**
 * `formatNumber(num)`: `num.toString()` with a comma inserted at every
 * position the regular expression `/\B(?=(\d{3})+(?!\d))/g` matches, that is
 * before each group of three digits counted from the right end of a digit run.
 */
module Format {
  import opened Values
  import opened Sequences

  /** A character of the regular-expression class `\w`. */
  predicate IsWordChar(c: char)
  {
    ('a' <= c <= 'z') || ('A' <= c <= 'Z') || IsDigit(c) || c == '_'
  }

  /** The number of consecutive digits of `s` from position `i` on. */
  function DigitRun(s: string, i: nat): nat
    requires i <= |s|
    decreases |s| - i
  {
    if i < |s| && IsDigit(s[i]) then 1 + DigitRun(s, i + 1) else 0
  }

  /**
   * The empty match of the pattern at position `i`: `\B` holds (the character
   * before is a word character, since the one after must be a digit), and the
   * look-ahead finds a positive multiple of three digits followed by a non-digit
   * or the end of the string.
   */
  predicate CommaAt(s: string, i: nat)
    requires i <= |s|
  {
    0 < i && IsWordChar(s[i - 1]) && DigitRun(s, i) >= 3 && DigitRun(s, i) % 3 == 0
  }

  /** The replacement applied to the characters of `s` from position `i` on. */
  function FormatFrom(s: string, i: nat): string
    requires i <= |s|
    decreases |s| - i
  {
    if i == |s| then []
    else (if CommaAt(s, i) then [','] else []) + [s[i]] + FormatFrom(s, i + 1)
  }

  /** `formatNumber` applied to a value whose `toString()` is `text`. */
  function FormatNumber(text: string): string
  {
    FormatFrom(text, 0)
  }

  /** `formatNumber(n)` for an integer `n`. */
  function FormatInt(n: int): string
  {
    FormatNumber(IntToString(n))
  }

  predicate NotComma(c: char)
  {
    c != ','
  }

  /** Deleting every comma. */
  function StripCommas(s: string): string
  {
    Filter(s, NotComma)
  }

  /** From position `i` on, the replacement only inserts commas. */
  lemma {:induction false} StripFormatFrom(s: string, i: nat)
    requires i <= |s|
    ensures StripCommas(FormatFrom(s, i)) == StripCommas(s[i..])
    decreases |s| - i
  {
    if i < |s| {
      var c: string := if CommaAt(s, i) then [','] else [];
      var rest := FormatFrom(s, i + 1);
      assert FormatFrom(s, i) == c + [s[i]] + rest;
      assert s[i..] == [s[i]] + s[i + 1..];
      StripFormatFrom(s, i + 1);
      StripInserted(c, s[i], rest, s[i + 1..]);
    }
  }

  /**
   * One step of the replacement: an inserted comma before a character
   * disappears when commas are deleted.
   */
  lemma StripInserted(c: string, x: char, rest: string, tail: string)
    requires c == [] || c == [',']
    requires StripCommas(rest) == StripCommas(tail)
    ensures StripCommas(c + [x] + rest) == StripCommas([x] + tail)
  {
    StripSameAfter(x, rest, tail);
    if c == [] {
      assert c + [x] + rest == [x] + rest;
    } else {
      assert c + [x] + rest == [','] + ([x] + rest);
      FilterAppend([','], [x] + rest, NotComma);
      FilterOne(',', NotComma);
      assert Filter([','], NotComma) == [];
    }
  }

  /** Putting the same character in front of two texts with equal stripped forms keeps them equal. */
  lemma StripSameAfter(x: char, rest: string, tail: string)
    requires StripCommas(rest) == StripCommas(tail)
    ensures StripCommas([x] + rest) == StripCommas([x] + tail)
  {
    FilterAppend([x], rest, NotComma);
    FilterAppend([x], tail, NotComma);
  }

  /**
   * Deleting every comma from `formatNumber`'s result gives back the text it
   * started from, with its own commas deleted too; a text without commas (any
   * `toString()` of a number) comes back exactly.
   */
  lemma StripFormatNumber(text: string)
    ensures StripCommas(FormatNumber(text)) == StripCommas(text)
    ensures ',' !in text ==> StripCommas(FormatNumber(text)) == text
  {
    StripFormatFrom(text, 0);
    assert text[0..] == text;
    if ',' !in text {
      FilterKeepsAll(text, NotComma);
    }
  }

  /** In a string of digits the run from `i` reaches the end. */
  lemma {:induction false} DigitRunToEnd(s: string, i: nat)
    requires AllDigits(s) && i <= |s|
    ensures DigitRun(s, i) == |s| - i
    decreases |s| - i
  {
    if i < |s| {
      DigitRunToEnd(s, i + 1);
    }
  }

  /**
   * Past the first digit of a digit string, the output from `i` on has
   * `(|s| - i) / 3` commas, and a position holds a comma exactly when a
   * multiple of four characters follows it up to the end.
   */
  lemma {:induction false} GroupsFrom(s: string, i: nat)
    requires AllDigits(s) && 0 < i <= |s|
    ensures |FormatFrom(s, i)| == (|s| - i) + (|s| - i) / 3
    ensures forall k :: 0 <= k < |FormatFrom(s, i)| ==>
              (FormatFrom(s, i)[k] == ',' <==> (|FormatFrom(s, i)| - k) % 4 == 0)
    decreases |s| - i
  {
    if i < |s| {
      GroupsFrom(s, i + 1);
      DigitRunToEnd(s, i);
      var rest := FormatFrom(s, i + 1);
      var r := |s| - i;
      GroupArithmetic(r);
      assert IsWordChar(s[i - 1]);
      var head: string := if r % 3 == 0 then [',', s[i]] else [s[i]];
      assert CommaAt(s, i) <==> r % 3 == 0;
      assert FormatFrom(s, i) == head + rest;
      CommasFromEnd(head, rest);
    }
  }

  /**
   * Commas placed every four characters from the end stay so placed when a
   * prefix that follows the same rule is put in front.
   */
  lemma CommasFromEnd(head: string, rest: string)
    requires forall k :: 0 <= k < |rest| ==> (rest[k] == ',' <==> (|rest| - k) % 4 == 0)
    requires forall k :: 0 <= k < |head| ==> (head[k] == ',' <==> (|head| + |rest| - k) % 4 == 0)
    ensures forall k :: 0 <= k < |head + rest| ==>
              ((head + rest)[k] == ',' <==> (|head + rest| - k) % 4 == 0)
  {
    forall k | 0 <= k < |head + rest| ensures (head + rest)[k] == ',' <==> (|head + rest| - k) % 4 == 0 {
      if k >= |head| {
        assert (head + rest)[k] == rest[k - |head|];
      }
    }
  }

  /**
   * The lengths in `GroupsFrom`: with `r` digits left the output is `r + r / 3`
   * long, a comma leads it exactly when `r` is a multiple of three, and then
   * its length is a multiple of four.
   */
  lemma GroupArithmetic(r: nat)
    requires r >= 1
    ensures r % 3 == 0 ==> r + r / 3 == (r - 1) + (r - 1) / 3 + 2 && (r + r / 3) % 4 == 0 &&
                           (r + r / 3 - 1) % 4 != 0
    ensures r % 3 != 0 ==> r + r / 3 == (r - 1) + (r - 1) / 3 + 1 && (r + r / 3) % 4 != 0
  {
    var j := r / 3;
    if r % 3 == 0 {
      assert r == 3 * j && j >= 1;
      assert (r - 1) / 3 == j - 1;
      assert r + r / 3 == 4 * j;
    } else if r % 3 == 1 {
      assert (r - 1) / 3 == j;
      assert r + r / 3 == 4 * j + 1;
    } else {
      assert (r - 1) / 3 == j;
      assert r + r / 3 == 4 * j + 2;
    }
  }

  /**
   * On a non-empty digit string (the `toString()` of a non-negative integer)
   * the result has `(|digits| - 1) / 3` commas, and a position holds a comma
   * exactly when a multiple of four characters follows it: the first group has
   * one to three digits, every later group exactly three, and there is no
   * leading or trailing comma.
   */
  lemma {:induction false} FormatDigits(digits: string)
    requires AllDigits(digits) && |digits| >= 1
    ensures var r := FormatNumber(digits);
      && |r| == |digits| + (|digits| - 1) / 3
      && (forall k :: 0 <= k < |r| ==> (r[k] == ',' <==> (|r| - k) % 4 == 0))
      && r[0] != ',' && r[|r| - 1] != ','
  {
    var r := FormatNumber(digits);
    var rest := FormatFrom(digits, 1);
    GroupsFrom(digits, 1);
    assert !CommaAt(digits, 0);
    assert r == [digits[0]] + rest;
    FirstGroupLength(|digits|);
    forall k | 0 <= k < |r| ensures r[k] == ',' <==> (|r| - k) % 4 == 0 {
      if k == 0 {
        assert IsDigit(r[0]);
      } else {
        assert r[k] == rest[k - 1];
      }
    }
  }

  /** The output length for `m` digits is never a multiple of four. */
  lemma FirstGroupLength(m: nat)
    requires m >= 1
    ensures (m + (m - 1) / 3) % 4 != 0
  {
    var j := (m - 1) / 3;
    assert m + j == 4 * j + (m - 1) % 3 + 1;
  }

  /**
   * A digit string keeps its digits in order, and one of up to three digits
   * (a non-negative integer below 1000) comes back unchanged.
   */
  lemma FormatDigitsStrip(digits: string)
    requires AllDigits(digits)
    ensures StripCommas(FormatNumber(digits)) == digits
    ensures |digits| <= 3 ==> FormatNumber(digits) == digits
  {
    StripFormatNumber(digits);
    assert ',' !in digits by {
      forall k | 0 <= k < |digits| ensures digits[k] != ',' {
        assert IsDigit(digits[k]);
      }
    }
    if 0 < |digits| <= 3 {
      FormatNoCommas(digits, 1);
      assert !CommaAt(digits, 0);
      assert digits == [digits[0]] + digits[1..];
    }
  }

  /** Fewer than three digits after a position leave no room for a comma. */
  lemma {:induction false} FormatNoCommas(s: string, i: nat)
    requires AllDigits(s) && 0 < i <= |s| && |s| - i < 3
    ensures FormatFrom(s, i) == s[i..]
    decreases |s| - i
  {
    if i < |s| {
      DigitRunToEnd(s, i);
      FormatNoCommas(s, i + 1);
      assert s[i..] == [s[i]] + s[i + 1..];
    }
  }

  /**
   * A leading minus sign is not a word character, so `\B` fails right after
   * it and the digits behind it are grouped as if it were absent.
   */
  lemma {:induction false} FormatShiftFrom(digits: string, i: nat)
    requires AllDigits(digits) && i <= |digits|
    ensures FormatFrom("-" + digits, i + 1) == FormatFrom(digits, i)
    decreases |digits| - i
  {
    var s := "-" + digits;
    if i < |digits| {
      FormatShiftFrom(digits, i + 1);
      DigitRunToEnd(digits, i);
      DigitRunShift(digits, i);
      assert s[i + 1] == digits[i];
      assert CommaAt(s, i + 1) == CommaAt(digits, i);
    }
  }

  lemma {:induction false} DigitRunShift(digits: string, i: nat)
    requires i <= |digits|
    ensures DigitRun("-" + digits, i + 1) == DigitRun(digits, i)
    decreases |digits| - i
  {
    if i < |digits| {
      DigitRunShift(digits, i + 1);
      assert ("-" + digits)[i + 1] == digits[i];
    }
  }

  /**
   * `formatNumber` of a negative integer is the minus sign followed by the
   * grouping of its magnitude.
   */
  lemma {:induction false} FormatNegative(n: int)
    requires n < 0
    ensures FormatInt(n) == "-" + FormatInt(-n)
  {
    var digits := NatToString(-n);
    var s := "-" + digits;
    FormatShiftFrom(digits, 0);
    assert !IsWordChar(s[0]);
    assert FormatFrom(s, 0) == [s[0]] + FormatFrom(s, 1);
  }

  /**
   * `formatNumber` on any integer: deleting its commas gives `n.toString()`,
   * and integers of magnitude below 1000 come back unchanged.
   */
  lemma {:induction false} FormatIntRoundTrip(n: int)
    ensures StripCommas(FormatInt(n)) == IntToString(n)
    ensures -1000 < n < 1000 ==> FormatInt(n) == IntToString(n)
  {
    var m := if n < 0 then -n else n;
    var digits := NatToString(m);
    ShortDigits(m);
    FormatDigitsStrip(digits);
    if n < 0 {
      FormatNegative(n);
      FilterAppend("-", FormatInt(-n), NotComma);
      FilterAppend("-", digits, NotComma);
      FilterOne('-', NotComma);
    }
  }

  /**
   * A non-negative integer from 1000 up is printed with at least one comma,
   * so unary `+` reads the printed text back as NaN.
   */
  lemma {:induction false} GroupedIsNaN(n: int)
    requires n >= 1000 || n <= -1000
    ensures ',' in FormatInt(n)
    ensures ParseNumber(FormatInt(n)) == NaN
  {
    var m := if n < 0 then -n else n;
    var digits := NatToString(m);
    ShortDigits(m);
    FormatDigits(digits);
    var r := FormatNumber(digits);
    assert (|r| - (|r| - 4)) % 4 == 0;
    assert r[|r| - 4] == ',';
    if n < 0 {
      FormatNegative(n);
      assert FormatInt(n)[|r| - 3] == ',';
    }
    ParseComma(FormatInt(n));
  }
}
