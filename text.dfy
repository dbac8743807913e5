/** The string operations the gradebook code relies on: decimal rendering of
    integers (`"{}".format(i)`, `"%d"`), `str.split(" ")`, the code-point
    order Python uses to compare strings, and two-digit hexadecimal (`"%02x"`). */
module Text {
  import Sorting

  // ---------------------------------------------------------------- decimal

  function DigitChar(d: nat): (c: char)
    requires d < 10
    ensures '0' <= c <= '9'
  {
    ('0' as int + d) as char
  }

  function DigitValue(c: char): int
  {
    c as int - '0' as int
  }

  /** Decimal digits of `n`, most significant first, without leading zeros. */
  function NatToDecimal(n: nat): (s: string)
    ensures |s| >= 1
    ensures forall i :: 0 <= i < |s| ==> '0' <= s[i] <= '9'
    ensures n >= 10 ==> s[0] != '0'
  {
    if n < 10 then [DigitChar(n)]
    else NatToDecimal(n / 10) + [DigitChar(n % 10)]
  }

  /** Reads a string of decimal digits back as a number. */
  function DecimalValue(s: string): int
  {
    if |s| == 0 then 0
    else DecimalValue(s[..|s| - 1]) * 10 + DigitValue(s[|s| - 1])
  }

  lemma {:induction false} DecimalRoundTrip(n: nat)
    ensures DecimalValue(NatToDecimal(n)) == n
  {
    if n >= 10 {
      var s := NatToDecimal(n);
      assert s[..|s| - 1] == NatToDecimal(n / 10);
      DecimalRoundTrip(n / 10);
    }
  }

  /** Different numbers are rendered differently. */
  lemma DecimalInjective(m: nat, n: nat)
    requires NatToDecimal(m) == NatToDecimal(n)
    ensures m == n
  {
    DecimalRoundTrip(m);
    DecimalRoundTrip(n);
  }

  /** `"%d" % i` and `"{:d}".format(i)`: a minus sign before negative numbers. */
  function IntToDecimal(i: int): (s: string)
    ensures |s| >= 1
    ensures (s[0] == '-') <==> i < 0
  {
    if i < 0 then "-" + NatToDecimal(-i) else NatToDecimal(i)
  }

  /** Reads a decimal string with an optional leading minus sign. */
  function IntDecimalValue(s: string): int
  {
    if |s| > 0 && s[0] == '-' then -DecimalValue(s[1..]) else DecimalValue(s)
  }

  /** The rendering of an integer reads back as the integer, sign included. */
  lemma IntDecimalRoundTrip(i: int)
    ensures IntDecimalValue(IntToDecimal(i)) == i
  {
    if i < 0 {
      DecimalRoundTrip(-i);
      assert IntToDecimal(i)[1..] == NatToDecimal(-i);
    } else {
      DecimalRoundTrip(i);
    }
  }

  /** `p + q == p + r` only when `q == r`: a fixed prefix keeps renderings apart. */
  lemma PrefixCancel(p: string, q: string, r: string)
    requires p + q == p + r
    ensures q == r
  {
    assert q == (p + q)[|p|..];
    assert r == (p + r)[|p|..];
  }

  // ------------------------------------------------------------ str.split

  /** `s.split(" ")`: cut at every single space; adjacent or trailing spaces
      give empty pieces, and nothing else (newlines included) is removed. */
  function SplitOnSpace(s: string): (parts: seq<string>)
    ensures |parts| >= 1
    ensures forall k :: 0 <= k < |parts| ==> ' ' !in parts[k]
  {
    if |s| == 0 then [""]
    else
      var rest := SplitOnSpace(s[1..]);
      if s[0] == ' ' then [""] + rest
      else [[s[0]] + rest[0]] + rest[1..]
  }

  /** `" ".join(parts)`. */
  function JoinWithSpace(parts: seq<string>): string
    requires |parts| >= 1
  {
    if |parts| == 1 then parts[0]
    else parts[0] + " " + JoinWithSpace(parts[1..])
  }

  /** Joining the pieces with single spaces gives back the line. */
  lemma {:induction false} SplitJoin(s: string)
    ensures JoinWithSpace(SplitOnSpace(s)) == s
  {
    if |s| > 0 {
      var rest := SplitOnSpace(s[1..]);
      SplitJoin(s[1..]);
      assert s == [s[0]] + s[1..];
      if s[0] != ' ' && |rest| > 1 {
        assert rest == [rest[0]] + rest[1..];
        assert JoinWithSpace(rest) == rest[0] + " " + JoinWithSpace(rest[1..]);
      }
    }
  }

  lemma {:induction false} SplitNoSpace(a: string)
    requires ' ' !in a
    ensures SplitOnSpace(a) == [a]
  {
    if |a| > 0 {
      assert ' ' !in a[1..] by {
        forall i | 0 <= i < |a[1..]| ensures a[1..][i] != ' ' { assert a[1..][i] == a[i + 1]; }
      }
      SplitNoSpace(a[1..]);
      assert a == [a[0]] + a[1..];
    }
  }

  lemma {:induction false} SplitAtFirstSpace(a: string, b: string)
    requires ' ' !in a
    ensures SplitOnSpace(a + " " + b) == [a] + SplitOnSpace(b)
  {
    if |a| == 0 {
      assert a + " " + b == [' '] + b;
      assert (a + " " + b)[1..] == b;
    } else {
      assert ' ' !in a[1..] by {
        forall i | 0 <= i < |a[1..]| ensures a[1..][i] != ' ' { assert a[1..][i] == a[i + 1]; }
      }
      SplitAtFirstSpace(a[1..], b);
      assert (a + " " + b)[1..] == a[1..] + " " + b;
      assert a == [a[0]] + a[1..];
    }
  }

  /** Splitting a join of space-free pieces gives back the pieces. */
  lemma {:induction false} JoinSplit(parts: seq<string>)
    requires |parts| >= 1
    requires forall k :: 0 <= k < |parts| ==> ' ' !in parts[k]
    ensures SplitOnSpace(JoinWithSpace(parts)) == parts
  {
    if |parts| == 1 {
      SplitNoSpace(parts[0]);
    } else {
      JoinSplit(parts[1..]);
      SplitAtFirstSpace(parts[0], JoinWithSpace(parts[1..]));
      assert parts == [parts[0]] + parts[1..];
    }
  }

  /** A line splits into more than one piece exactly when it holds a space. */
  lemma {:induction false} SplitMoreThanOne(s: string)
    ensures |SplitOnSpace(s)| > 1 <==> ' ' in s
  {
    if |s| > 0 {
      SplitMoreThanOne(s[1..]);
      assert s == [s[0]] + s[1..];
    }
  }

  // ------------------------------------------------- string comparison

  /** `a <= b` on Python strings: code point by code point, a proper prefix first. */
  predicate LexLe(a: string, b: string)
  {
    |a| == 0 || (|b| > 0 && (a[0] < b[0] || (a[0] == b[0] && LexLe(a[1..], b[1..]))))
  }

  lemma {:induction false} LexLeTotal(a: string, b: string)
    ensures LexLe(a, b) || LexLe(b, a)
  {
    if |a| > 0 && |b| > 0 && a[0] == b[0] {
      LexLeTotal(a[1..], b[1..]);
    }
  }

  lemma {:induction false} LexLeAntisymmetric(a: string, b: string)
    requires LexLe(a, b) && LexLe(b, a)
    ensures a == b
  {
    if |a| > 0 && |b| > 0 {
      LexLeAntisymmetric(a[1..], b[1..]);
      assert a == [a[0]] + a[1..];
      assert b == [b[0]] + b[1..];
    }
  }

  lemma {:induction false} LexLeTransitive(a: string, b: string, c: string)
    requires LexLe(a, b) && LexLe(b, c)
    ensures LexLe(a, c)
  {
    if |a| > 0 && |b| > 0 && |c| > 0 && a[0] == b[0] == c[0] {
      LexLeTransitive(a[1..], b[1..], c[1..]);
    }
  }

  lemma LexLeIsTotalOrder()
    ensures Sorting.IsTotalOrder(LexLe)
  {
    forall a, b ensures LexLe(a, b) || LexLe(b, a) { LexLeTotal(a, b); }
    forall a, b | LexLe(a, b) && LexLe(b, a) ensures a == b { LexLeAntisymmetric(a, b); }
    forall a, b, c | LexLe(a, b) && LexLe(b, c) ensures LexLe(a, c) { LexLeTransitive(a, b, c); }
  }

  // ------------------------------------------------------------ hexadecimal

  function HexDigit(d: nat): (c: char)
    requires d < 16
    ensures ('0' <= c <= '9') || ('a' <= c <= 'f')
  {
    if d < 10 then ('0' as int + d) as char else ('a' as int + d - 10) as char
  }

  /** Value of a lower-case hexadecimal digit, -1 for any other character. */
  function HexDigitValue(c: char): int
  {
    if '0' <= c <= '9' then c as int - '0' as int
    else if 'a' <= c <= 'f' then c as int - 'a' as int + 10
    else -1
  }

  /** Lower-case hexadecimal digits of `n`, without leading zeros. */
  function NatToHex(n: nat): (s: string)
    ensures |s| >= 1
    ensures n >= 16 ==> |s| >= 2
    ensures forall i :: 0 <= i < |s| ==> ('0' <= s[i] <= '9') || ('a' <= s[i] <= 'f')
  {
    if n < 16 then [HexDigit(n)] else NatToHex(n / 16) + [HexDigit(n % 16)]
  }

  /** `"%02x" % n`: at least two characters, zero-padded; a negative number
      gets its sign, which already fills the width. */
  function Hex02(n: int): (s: string)
    ensures |s| >= 2
    ensures (s[0] == '-') <==> n < 0
  {
    if n < 0 then "-" + NatToHex(-n)
    else if n < 16 then "0" + NatToHex(n)
    else NatToHex(n)
  }

  lemma HexDigitRoundTrip(d: nat)
    requires d < 16
    ensures HexDigitValue(HexDigit(d)) == d
  {
  }

  /** A byte value is rendered as exactly two lower-case hexadecimal digits,
      which read back as the value. */
  lemma Hex02Byte(n: int)
    requires 0 <= n < 256
    ensures |Hex02(n)| == 2
    ensures HexDigitValue(Hex02(n)[0]) * 16 + HexDigitValue(Hex02(n)[1]) == n
    ensures 0 <= HexDigitValue(Hex02(n)[0]) < 16 && 0 <= HexDigitValue(Hex02(n)[1]) < 16
  {
    if n < 16 {
      assert Hex02(n) == [HexDigit(0), HexDigit(n)];
      HexDigitRoundTrip(0);
      HexDigitRoundTrip(n);
    } else {
      assert NatToHex(n) == NatToHex(n / 16) + [HexDigit(n % 16)];
      assert Hex02(n) == [HexDigit(n / 16), HexDigit(n % 16)];
      HexDigitRoundTrip(n / 16);
      HexDigitRoundTrip(n % 16);
    }
  }
}
