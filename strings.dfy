/** Text helpers shared by the alert messages, the object labels and the CSV report. */
module Strings {

  /** The character of a decimal digit. */
  function Digit(d: nat): (c: char)
    requires d < 10
    ensures '0' <= c <= '9'
    ensures c as int - '0' as int == d
  {
    ('0' as int + d) as char
  }

  predicate IsDigits(s: string) {
    forall i :: 0 <= i < |s| ==> '0' <= s[i] <= '9'
  }

  /** A non-negative integer in decimal, as JavaScript's template literals print it. */
  function NatToString(n: nat): (s: string)
    ensures |s| >= 1 && IsDigits(s)
    ensures s[0] == '0' ==> n == 0
    decreases n
  {
    if n < 10 then [Digit(n)] else NatToString(n / 10) + [Digit(n % 10)]
  }

  /** The value of a string of decimal digits. */
  function DecimalValue(s: string): nat
    requires IsDigits(s)
    decreases |s|
  {
    if s == [] then 0
    else DecimalValue(s[..|s| - 1]) * 10 + (s[|s| - 1] as int - '0' as int)
  }

  /** Printing a number and reading it back gives the number. */
  lemma {:induction false} DecimalValueOfNatToString(n: nat)
    ensures DecimalValue(NatToString(n)) == n
    decreases n
  {
    var s := NatToString(n);
    if n >= 10 {
      DecimalValueOfNatToString(n / 10);
      assert s[..|s| - 1] == NatToString(n / 10);
    }
  }

  /**
   * A number given in hundredths (h / 100), printed as JavaScript prints the double h / 100:
   * no trailing zeros in the fraction and no decimal point for a whole number.
   */
  function HundredthsToString(h: nat): (s: string)
    ensures '.' in s <==> h % 100 != 0
    ensures '.' in s ==> s[|s| - 1] != '0'
    ensures |s| >= 1 && '0' <= s[0] <= '9'
  {
    var whole, frac := h / 100, h % 100;
    if frac == 0 then NatToString(whole)
    else if frac % 10 == 0 then NatToString(whole) + "." + [Digit(frac / 10)]
    else NatToString(whole) + "." + [Digit(frac / 10), Digit(frac % 10)]
  }

  /**
   * The printed hundredths read back: the whole part is `NatToString(h / 100)`, and a non-whole
   * number adds a point and one or two fraction digits worth exactly `h % 100` hundredths.
   */
  lemma HundredthsReadBack(h: nat)
    ensures var w, s := NatToString(h / 100), HundredthsToString(h);
      |s| >= |w| && s[..|w|] == w && (h % 100 == 0 ==> s == w)
    ensures var w, s := NatToString(h / 100), HundredthsToString(h);
      h % 100 != 0 ==>
        |s| > |w| + 1 && s[|w|] == '.' &&
        var f := s[|w| + 1..];
        1 <= |f| <= 2 && IsDigits(f) && DecimalValue(f) * (if |f| == 1 then 10 else 1) == h % 100
  {
    var w, s, frac := NatToString(h / 100), HundredthsToString(h), h % 100;
    if frac != 0 {
      var f := if frac % 10 == 0 then [Digit(frac / 10)] else [Digit(frac / 10), Digit(frac % 10)];
      assert s == w + "." + f;
      assert s[..|w|] == w;
      assert s[|w| + 1..] == f;
      assert f[..1] == [Digit(frac / 10)];
      assert DecimalValue(f[..1]) == frac / 10;
    }
  }

  function LowerChar(c: char): char {
    if 'A' <= c <= 'Z' then (c as int - 'A' as int + 'a' as int) as char else c
  }

  /** `String.prototype.toLowerCase`, restricted to the ASCII letters. */
  function ToLower(s: string): (r: string)
    ensures |r| == |s|
    ensures forall i :: 0 <= i < |s| ==> r[i] == LowerChar(s[i])
    ensures forall i :: 0 <= i < |r| ==> !('A' <= r[i] <= 'Z')
  {
    seq(|s|, i requires 0 <= i < |s| => LowerChar(s[i]))
  }

  /** `parts.join(sep)` for a one-character separator. */
  function Join(parts: seq<string>, sep: char): string
    decreases |parts|
  {
    if |parts| == 0 then ""
    else if |parts| == 1 then parts[0]
    else parts[0] + [sep] + Join(parts[1..], sep)
  }

  /** `s.split(sep)` for a one-character separator: the pieces between the separators, in order. */
  function Split(s: string, sep: char): (r: seq<string>)
    ensures |r| >= 1
    decreases |s|
  {
    if s == [] then [""]
    else
      var tail := Split(s[1..], sep);
      if s[0] == sep then [""] + tail else [[s[0]] + tail[0]] + tail[1..]
  }

  lemma {:induction false} SplitWithoutSeparator(p: string, sep: char)
    requires sep !in p
    ensures Split(p, sep) == [p]
    decreases |p|
  {
    if p != [] {
      SplitWithoutSeparator(p[1..], sep);
      assert [p[0]] + p[1..] == p;
    }
  }

  lemma {:induction false} SplitAtFirstSeparator(p: string, rest: string, sep: char)
    requires sep !in p
    ensures Split(p + [sep] + rest, sep) == [p] + Split(rest, sep)
    decreases |p|
  {
    var s := p + [sep] + rest;
    if p == [] {
      assert s[1..] == rest;
    } else {
      assert s[1..] == p[1..] + [sep] + rest;
      SplitAtFirstSeparator(p[1..], rest, sep);
      assert [p[0]] + p[1..] == p;
    }
  }

  /** Splitting a join gives back the parts, provided no part holds the separator. */
  lemma {:induction false} SplitJoin(parts: seq<string>, sep: char)
    requires |parts| >= 1
    requires forall i :: 0 <= i < |parts| ==> sep !in parts[i]
    ensures Split(Join(parts, sep), sep) == parts
    decreases |parts|
  {
    if |parts| == 1 {
      SplitWithoutSeparator(parts[0], sep);
    } else {
      SplitJoin(parts[1..], sep);
      SplitAtFirstSeparator(parts[0], Join(parts[1..], sep), sep);
      assert [parts[0]] + parts[1..] == parts;
    }
  }

  /** A join holds no character that is neither the separator nor in some part. */
  lemma {:induction false} JoinExcludes(parts: seq<string>, sep: char, c: char)
    requires c != sep
    requires forall i :: 0 <= i < |parts| ==> c !in parts[i]
    ensures c !in Join(parts, sep)
    decreases |parts|
  {
    if |parts| > 1 {
      JoinExcludes(parts[1..], sep, c);
    }
  }
}
