/** String helpers standing for the JavaScript built-ins the core relies on:
    `String.prototype.split` and `Array.prototype.join` with a one-character
    separator, `"0".repeat(n)`, the decimal rendering of a number in a template
    literal, and `Number.parseInt` with no radix. */
module Strings {
  import opened Wrappers

  // ---------------------------------------------------------------------------
  // Characters

  predicate IsDigit(c: char) { '0' <= c <= '9' }

  predicate AllDigits(s: string) { forall i :: 0 <= i < |s| ==> IsDigit(s[i]) }

  predicate IsHexDigit(c: char) { IsDigit(c) || 'a' <= c <= 'f' || 'A' <= c <= 'F' }

  /** The characters `String.prototype.trim` and `parseInt` skip: ECMAScript's
      WhiteSpace (tab, vertical tab, form feed, zero-width no-break space and the
      Unicode space separators) and LineTerminator (LF, CR, LS, PS). */
  predicate IsJsWhiteSpace(c: char) {
    || c == '\t' || c == '\n' || c == '\U{000B}' || c == '\U{000C}' || c == '\r'
    || c == ' ' || c == '\U{00A0}' || c == '\U{1680}'
    || ('\U{2000}' <= c <= '\U{200A}')
    || c == '\U{2028}' || c == '\U{2029}' || c == '\U{202F}' || c == '\U{205F}'
    || c == '\U{3000}' || c == '\U{FEFF}'
  }

  /** The value of a hexadecimal digit; other characters, which no caller
      passes, count as zero. */
  function DigitValue(c: char): (v: nat)
    ensures v < 16
    ensures IsDigit(c) ==> v < 10
  {
    if IsDigit(c) then c as int - '0' as int
    else if 'a' <= c <= 'f' then c as int - 'a' as int + 10
    else if 'A' <= c <= 'F' then c as int - 'A' as int + 10
    else 0
  }

  function DigitChar(d: nat): (c: char)
    requires d < 10
    ensures IsDigit(c) && DigitValue(c) == d
  {
    ('0' as int + d) as char
  }

  // ---------------------------------------------------------------------------
  // Numbers as digit strings

  /** The value of a string of digits in the given base (most significant first). */
  function DigitsValue(s: string, base: nat): nat
  {
    if s == [] then 0 else base * DigitsValue(s[..|s| - 1], base) + DigitValue(s[|s| - 1])
  }

  function DecimalValue(s: string): nat
  {
    DigitsValue(s, 10)
  }

  /** The decimal rendering of a non-negative integer, as `${n}` produces it. */
  function NatToDecimal(n: nat): (r: string)
    ensures |r| > 0 && AllDigits(r)
    ensures n < 10 <==> |r| == 1
    ensures |r| == 1 || r[0] != '0'
  {
    if n < 10 then [DigitChar(n)] else NatToDecimal(n / 10) + [DigitChar(n % 10)]
  }

  /** The decimal rendering of an integer, with a leading `-` when negative. */
  function IntToDecimal(i: int): (r: string)
    ensures |r| > 0
    ensures i >= 0 ==> r == NatToDecimal(i)
    ensures i < 0 ==> r == "-" + NatToDecimal(-i)
  {
    if i < 0 then "-" + NatToDecimal(-i) else NatToDecimal(i)
  }

  lemma {:induction false} DecimalRoundTrip(n: nat)
    ensures DecimalValue(NatToDecimal(n)) == n
  {
    var s := NatToDecimal(n);
    if n < 10 {
      assert s[..|s| - 1] == [];
      assert DecimalValue(s) == 10 * DigitsValue([], 10) + DigitValue(s[0]);
    } else {
      assert s[..|s| - 1] == NatToDecimal(n / 10);
      assert DigitValue(s[|s| - 1]) == n % 10;
      DecimalRoundTrip(n / 10);
    }
  }

  /** Leading zeros do not change the value of a digit string. */
  lemma {:induction false} LeadingZerosValue(z: string, s: string)
    requires forall i :: 0 <= i < |z| ==> z[i] == '0'
    ensures DecimalValue(z + s) == DecimalValue(s)
  {
    if s == [] {
      assert z + s == z;
      ZerosValue(z);
    } else {
      var t := z + s;
      assert t[..|t| - 1] == z + s[..|s| - 1];
      LeadingZerosValue(z, s[..|s| - 1]);
    }
  }

  lemma {:induction false} ZerosValue(z: string)
    requires forall i :: 0 <= i < |z| ==> z[i] == '0'
    ensures DecimalValue(z) == 0
  {
    if z != [] {
      ZerosValue(z[..|z| - 1]);
    }
  }

  // ---------------------------------------------------------------------------
  // Scanning

  /** The index of the first occurrence of `c` in `s`, or `|s|` when there is none. */
  function IndexOf(s: string, c: char): (i: nat)
    ensures i <= |s|
    ensures forall k :: 0 <= k < i ==> s[k] != c
    ensures i < |s| ==> s[i] == c
  {
    if s == [] then 0 else if s[0] == c then 0 else 1 + IndexOf(s[1..], c)
  }

  /** The index of the first `c` at or after `from`, or `|s|` when there is none. */
  function IndexFrom(s: string, c: char, from: nat): (i: nat)
    requires from <= |s|
    ensures from <= i <= |s|
    ensures forall k :: from <= k < i ==> s[k] != c
    ensures i < |s| ==> s[i] == c
    decreases |s| - from
  {
    if from == |s| || s[from] == c then from else IndexFrom(s, c, from + 1)
  }

  /** The first position at or after `from` that is no decimal digit (where a
      greedy `\d+` starting at `from` stops), or `|s|`. */
  function DigitsEnd(s: string, from: nat): (i: nat)
    requires from <= |s|
    ensures from <= i <= |s|
    ensures forall k :: from <= k < i ==> IsDigit(s[k])
    ensures i < |s| ==> !IsDigit(s[i])
    decreases |s| - from
  {
    if from == |s| || !IsDigit(s[from]) then from else DigitsEnd(s, from + 1)
  }

  /** `IndexFrom` is determined by the first occurrence. */
  lemma IndexFromIs(s: string, c: char, from: nat, i: nat)
    requires from <= i <= |s|
    requires forall k :: from <= k < i ==> s[k] != c
    requires i == |s| || s[i] == c
    ensures IndexFrom(s, c, from) == i
  {
  }

  /** `DigitsEnd` is determined by the first non-digit. */
  lemma DigitsEndIs(s: string, from: nat, i: nat)
    requires from <= i <= |s|
    requires forall k :: from <= k < i ==> IsDigit(s[k])
    requires i == |s| || !IsDigit(s[i])
    ensures DigitsEnd(s, from) == i
  {
  }

  /** The literal `lit` occurs in `s` at position `i`. */
  predicate HasAt(s: string, i: nat, lit: string) {
    i + |lit| <= |s| && s[i..i + |lit|] == lit
  }

  /** The longest prefix of `s` made of decimal digits (what a greedy `\d+` or
      `\d*` consumes). */
  function LeadingDigits(s: string): string
  {
    if s == [] || !IsDigit(s[0]) then [] else [s[0]] + LeadingDigits(s[1..])
  }

  /** `LeadingDigits` is the longest digit prefix. */
  lemma {:induction false} LeadingDigitsIsPrefix(s: string)
    ensures var d := LeadingDigits(s);
      && |d| <= |s| && d == s[..|d|] && AllDigits(d)
      && (|d| < |s| ==> !IsDigit(s[|d|]))
  {
    if s != [] && IsDigit(s[0]) {
      LeadingDigitsIsPrefix(s[1..]);
      assert s == [s[0]] + s[1..];
    }
  }

  /** The longest prefix of `s` made of hexadecimal digits. */
  function LeadingHexDigits(s: string): string
  {
    if s == [] || !IsHexDigit(s[0]) then [] else [s[0]] + LeadingHexDigits(s[1..])
  }

  /** A digit string stops a greedy digit scan exactly at its end. */
  lemma {:induction false} LeadingDigitsOfDigits(d: string, rest: string)
    requires AllDigits(d)
    requires rest == [] || !IsDigit(rest[0])
    ensures LeadingDigits(d + rest) == d
  {
    if d != [] {
      assert (d + rest)[1..] == d[1..] + rest;
      LeadingDigitsOfDigits(d[1..], rest);
    }
  }

  function TrimStart(s: string): string
  {
    if s != [] && IsJsWhiteSpace(s[0]) then TrimStart(s[1..]) else s
  }

  /** `TrimStart` drops a white-space prefix and stops at the first other character. */
  lemma {:induction false} TrimStartIsSuffix(s: string)
    ensures var t := TrimStart(s);
      && |t| <= |s| && t == s[|s| - |t|..]
      && (t == [] || !IsJsWhiteSpace(t[0]))
      && forall k :: 0 <= k < |s| - |t| ==> IsJsWhiteSpace(s[k])
  {
    if s != [] && IsJsWhiteSpace(s[0]) {
      TrimStartIsSuffix(s[1..]);
      var t := TrimStart(s[1..]);
      assert s[1..][|s| - 1 - |t|..] == s[|s| - |t|..];
      forall k | 0 <= k < |s| - |t| ensures IsJsWhiteSpace(s[k]) {
        if k > 0 {
          assert s[k] == s[1..][k - 1];
        }
      }
    }
  }

  /** `Number.parseInt(s)` with no radix, on mathematical integers: skip leading
      white space, read an optional sign, switch to base 16 after a `0x`/`0X`
      prefix, then take the longest run of digits; `None` stands for `NaN`. */
  function ParseInt(s: string): Option<int>
  {
    var t := TrimStart(s);
    var sign := if t != [] && t[0] == '-' then -1 else 1;
    var u := if t != [] && (t[0] == '-' || t[0] == '+') then t[1..] else t;
    if |u| >= 2 && u[0] == '0' && (u[1] == 'x' || u[1] == 'X') then
      var h := LeadingHexDigits(u[2..]);
      if h == [] then None else Some(sign * DigitsValue(h, 16))
    else
      var d := LeadingDigits(u);
      if d == [] then None else Some(sign * DecimalValue(d))
  }

  /** `parseInt` of a non-empty digit string is its decimal value. */
  lemma ParseIntOfDigits(d: string)
    requires d != [] && AllDigits(d)
    ensures ParseInt(d) == Some(DecimalValue(d))
  {
    LeadingDigitsOfDigits(d, []);
    assert d + [] == d;
    assert !IsJsWhiteSpace(d[0]);
    assert TrimStart(d) == d;
    assert |d| >= 2 ==> IsDigit(d[1]);
  }

  /** `parseInt` reads back every integer's decimal rendering. */
  lemma ParseIntRoundTrip(i: int)
    ensures ParseInt(IntToDecimal(i)) == Some(i)
  {
    if i >= 0 {
      DecimalRoundTrip(i);
      ParseIntOfDigits(NatToDecimal(i));
    } else {
      var d := NatToDecimal(-i);
      var t := "-" + d;
      DecimalRoundTrip(-i);
      LeadingDigitsOfDigits(d, []);
      assert d + [] == d;
      assert TrimStart(t) == t;
      assert t[1..] == d;
      assert |d| == 1 || d[0] != '0';
    }
  }

  /** `parseInt` yields `NaN` on text with no digit at all. */
  lemma ParseIntNoDigits(s: string)
    requires forall k :: 0 <= k < |s| ==> !IsDigit(s[k])
    ensures ParseInt(s) == None
  {
    TrimStartIsSuffix(s);
    var t := TrimStart(s);
    assert forall k :: 0 <= k < |t| ==> t[k] == s[|s| - |t| + k];
    if t != [] && (t[0] == '-' || t[0] == '+') && |t| > 1 {
      assert t[1..][0] == t[1];
    }
  }

  // ---------------------------------------------------------------------------
  // Splitting and joining on one character

  /** `s.split(sep)`: the pieces between occurrences of `sep`, in order; the
      empty string splits into `[""]`. */
  function Split(s: string, sep: char): (r: seq<string>)
    ensures |r| >= 1
  {
    if s == [] then [""]
    else if s[0] == sep then [""] + Split(s[1..], sep)
    else
      var r := Split(s[1..], sep);
      [[s[0]] + r[0]] + r[1..]
  }

  /** No piece holds the separator. */
  lemma {:induction false} SplitPiecesLackSep(s: string, sep: char)
    ensures forall k :: 0 <= k < |Split(s, sep)| ==> sep !in Split(s, sep)[k]
  {
    if s != [] {
      SplitPiecesLackSep(s[1..], sep);
    }
  }

  /** `parts.join(sep)`: no separator before the first or after the last part. */
  function Join(parts: seq<string>, sep: char): string
  {
    if parts == [] then ""
    else if |parts| == 1 then parts[0]
    else parts[0] + [sep] + Join(parts[1..], sep)
  }

  /** Splitting at a separator splits the pieces. */
  lemma {:induction false} SplitConcat(a: string, sep: char, b: string)
    ensures Split(a + [sep] + b, sep) == Split(a, sep) + Split(b, sep)
  {
    if a == [] {
      assert a + [sep] + b == [sep] + b;
      assert ([sep] + b)[1..] == b;
    } else {
      var s := a + [sep] + b;
      assert s[0] == a[0];
      assert s[1..] == a[1..] + [sep] + b;
      SplitConcat(a[1..], sep, b);
      if a[0] != sep {
        PrependToFirst(a[0], Split(a[1..], sep), Split(b, sep));
      }
    }
  }

  /** Extending the first piece commutes with appending further pieces. */
  lemma PrependToFirst(c: char, xs: seq<string>, ys: seq<string>)
    requires |xs| >= 1
    ensures [[c] + (xs + ys)[0]] + (xs + ys)[1..] == ([[c] + xs[0]] + xs[1..]) + ys
  {
    assert (xs + ys)[1..] == xs[1..] + ys;
  }

  /** Joining then splitting gives the parts back when no part holds the separator. */
  lemma {:induction false} SplitJoin(parts: seq<string>, sep: char)
    requires |parts| >= 1
    requires forall k :: 0 <= k < |parts| ==> sep !in parts[k]
    ensures Split(Join(parts, sep), sep) == parts
  {
    if |parts| == 1 {
      SplitNoSep(parts[0], sep);
    } else {
      SplitJoin(parts[1..], sep);
      SplitConcat(parts[0], sep, Join(parts[1..], sep));
      SplitNoSep(parts[0], sep);
      assert parts == [parts[0]] + parts[1..];
    }
  }

  lemma {:induction false} SplitNoSep(s: string, sep: char)
    requires sep !in s
    ensures Split(s, sep) == [s]
  {
    if s != [] {
      SplitNoSep(s[1..], sep);
      assert [s[0]] + s[1..] == s;
    }
  }

  /** An empty first part puts a separator in front. */
  lemma JoinAfterEmpty(r: seq<string>, sep: char)
    requires |r| >= 1
    ensures Join([""] + r, sep) == [sep] + Join(r, sep)
  {
    var p := [""] + r;
    assert p[1..] == r;
  }

  /** Extending the first part extends the joined text. */
  lemma JoinExtendFirst(c: char, r: seq<string>, sep: char)
    requires |r| >= 1
    ensures Join([[c] + r[0]] + r[1..], sep) == [c] + Join(r, sep)
  {
    var r' := [[c] + r[0]] + r[1..];
    if |r| > 1 {
      assert r'[1..] == r[1..];
      assert Join(r, sep) == r[0] + [sep] + Join(r[1..], sep);
    }
  }

  /** A character that is neither the separator nor in any part is not in the joined text. */
  lemma {:induction false} JoinLacks(parts: seq<string>, sep: char, c: char)
    requires c != sep
    requires forall k :: 0 <= k < |parts| ==> c !in parts[k]
    ensures c !in Join(parts, sep)
  {
    if |parts| > 1 {
      JoinLacks(parts[1..], sep, c);
      assert c !in parts[0];
    }
  }

  /** Splitting then joining gives the text back. */
  lemma {:induction false} JoinSplit(s: string, sep: char)
    ensures Join(Split(s, sep), sep) == s
  {
    if s != [] {
      JoinSplit(s[1..], sep);
      var r := Split(s[1..], sep);
      assert s == [s[0]] + s[1..];
      if s[0] == sep {
        JoinAfterEmpty(r, sep);
      } else {
        JoinExtendFirst(s[0], r, sep);
      }
    }
  }

  // ---------------------------------------------------------------------------
  // Repetition

  /** `c.repeat(n)`. */
  function Repeat(c: char, n: nat): (r: string)
    ensures |r| == n
    ensures forall k :: 0 <= k < n ==> r[k] == c
  {
    if n == 0 then "" else [c] + Repeat(c, n - 1)
  }
}
