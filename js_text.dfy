/**
 * The JavaScript string built-ins the tracker relies on: `String.prototype.trim`,
 * `Number.prototype.toString` on integers and `String.prototype.padStart`,
 * together with a reader for decimal digit strings used to state round trips.
 */
module JsText {

  /**
   * The characters `trim` strips: the ECMAScript WhiteSpace characters (tab,
   * vertical tab, form feed, the byte order mark and every space separator)
   * and its LineTerminator characters.
   */
  predicate IsTrimmable(c: char) {
    || c == '\t' || c == '\n' || c == '\U{B}' || c == '\U{C}' || c == '\r'
    || c == ' ' || c == '\U{A0}' || c == '\U{1680}'
    || ('\U{2000}' <= c && c <= '\U{200A}')
    || c == '\U{2028}' || c == '\U{2029}' || c == '\U{202F}' || c == '\U{205F}'
    || c == '\U{3000}' || c == '\U{FEFF}'
  }

  /** The length of the run of trimmable characters `s` starts with. */
  function LeadingRun(s: string): (n: nat)
    ensures n <= |s|
    ensures forall k :: 0 <= k < n ==> IsTrimmable(s[k])
    ensures n == |s| || !IsTrimmable(s[n])
  {
    if s != [] && IsTrimmable(s[0]) then 1 + LeadingRun(s[1..]) else 0
  }

  /** Drops leading trimmable characters: the result is the longest suffix that does not start with one. */
  function TrimStart(s: string): (r: string)
    ensures |r| <= |s| && r == s[|s| - |r|..]
    ensures forall k :: 0 <= k < |s| - |r| ==> IsTrimmable(s[k])
    ensures r == [] || !IsTrimmable(r[0])
  {
    s[LeadingRun(s)..]
  }

  /** Drops trailing trimmable characters: the result is the longest prefix that does not end with one. */
  function TrimEnd(s: string): (r: string)
    ensures |r| <= |s| && r == s[..|r|]
    ensures forall k :: |r| <= k < |s| ==> IsTrimmable(s[k])
    ensures r == [] || !IsTrimmable(r[|r| - 1])
  {
    if s != [] && IsTrimmable(s[|s| - 1]) then TrimEnd(s[..|s| - 1]) else s
  }

  /** `s.trim()`. */
  function Trim(s: string): (r: string)
    ensures r == [] || (!IsTrimmable(r[0]) && !IsTrimmable(r[|r| - 1]))
  {
    TrimEnd(TrimStart(s))
  }

  /** `trim` yields the empty string exactly when every character is trimmable. */
  lemma TrimEmptyIffBlank(s: string)
    ensures Trim(s) == [] <==> forall k :: 0 <= k < |s| ==> IsTrimmable(s[k])
  {
    TrimOfBlank(s);
  }

  /** Both trimming steps together remove everything exactly when every character is trimmable. */
  lemma TrimOfBlank(s: string)
    ensures var r := TrimEnd(TrimStart(s));
      r != [] ==> r[0] == TrimStart(s)[0]
    ensures TrimEnd(TrimStart(s)) == [] <==> forall k :: 0 <= k < |s| ==> IsTrimmable(s[k])
  {
    var front := TrimStart(s);
    if TrimEnd(front) == [] {
      // front is empty: its first character would otherwise be kept by TrimEnd
      assert front == [];
    }
  }

  /** A string that neither starts nor ends with a trimmable character is its own trim. */
  lemma TrimOfTrimmed(s: string)
    requires s == [] || (!IsTrimmable(s[0]) && !IsTrimmable(s[|s| - 1]))
    ensures Trim(s) == s
  {
    if s != [] {
      assert TrimStart(s) == s;
      assert TrimEnd(s) == s;
    }
  }

  /**
   * `trim` keeps exactly the middle of `s`: it is the slice between the
   * leading and the trailing run of trimmable characters. With the ends of
   * the result not trimmable (or every character trimmable when the result
   * is empty), this fixes the result for every input.
   */
  lemma TrimIsInfix(s: string)
    ensures var i := |s| - |TrimStart(s)|;
      var j := i + |Trim(s)|;
      && 0 <= i <= j <= |s|
      && Trim(s) == s[i..j]
      && (forall k :: 0 <= k < i ==> IsTrimmable(s[k]))
      && (forall k :: j <= k < |s| ==> IsTrimmable(s[k]))
  {
    var front := TrimStart(s);
    var back := TrimEnd(front);
    PrefixOfSuffix(s, front, back);
  }

  /** A prefix `back` of a suffix `front` of `s` is a slice of `s`; what `back` leaves of `front` ends `s`. */
  lemma PrefixOfSuffix(s: string, front: string, back: string)
    requires |front| <= |s| && front == s[|s| - |front|..]
    requires |back| <= |front| && back == front[..|back|]
    requires forall k :: |back| <= k < |front| ==> IsTrimmable(front[k])
    ensures var i := |s| - |front|;
      && back == s[i..i + |back|]
      && forall k :: i + |back| <= k < |s| ==> IsTrimmable(s[k])
  {
    var i := |s| - |front|;
    forall k | i + |back| <= k < |s| ensures IsTrimmable(s[k]) {
      assert s[k] == front[k - i];
    }
  }

  /** Trimming a string twice is the same as trimming it once. */
  lemma TrimIdempotent(s: string)
    ensures Trim(Trim(s)) == Trim(s)
  {
    TrimOfTrimmed(Trim(s));
  }

  predicate IsDigit(c: char) {
    '0' <= c <= '9'
  }

  predicate AllDigits(s: string) {
    forall k :: 0 <= k < |s| ==> IsDigit(s[k])
  }

  function DigitChar(d: nat): (c: char)
    requires d < 10
    ensures IsDigit(c) && c as int - '0' as int == d
  {
    ('0' as int + d) as char
  }

  /** The decimal digits of `n` with no leading zero, as `n.toString()` gives them. */
  function DecimalDigits(n: nat): (r: string)
    ensures |r| >= 1 && AllDigits(r)
    ensures n < 10 <==> |r| == 1
    ensures r[0] == '0' ==> n == 0
  {
    if n < 10 then [DigitChar(n)] else DecimalDigits(n / 10) + [DigitChar(n % 10)]
  }

  /** `i.toString()` for an integer `i`: a minus sign before the digits of a negative value. */
  function NumberToString(i: int): (r: string)
    ensures i >= 0 ==> AllDigits(r) && DigitsValue(r) == i
    ensures i < 0 ==> |r| >= 2 && r[0] == '-' && AllDigits(r[1..]) && DigitsValue(r[1..]) == -i
    ensures |r| >= 2 && r[0] != '-' ==> r[0] != '0'
  {
    if i < 0 then
      var digits := DecimalDigits(-i);
      DigitsValueOfDecimalDigits(-i);
      assert ("-" + digits)[1..] == digits;
      "-" + digits
    else
      DigitsValueOfDecimalDigits(i);
      DecimalDigits(i)
  }

  function Repeat(c: char, n: nat): (r: string)
    ensures |r| == n && forall k :: 0 <= k < n ==> r[k] == c
  {
    if n == 0 then [] else [c] + Repeat(c, n - 1)
  }

  /** `s.padStart(target, fill)` for a one-character `fill`. */
  function PadStart(s: string, target: nat, fill: char): (r: string)
    ensures |r| == if |s| >= target then |s| else target
    ensures r[|r| - |s|..] == s
    ensures forall k :: 0 <= k < |r| - |s| ==> r[k] == fill
  {
    if |s| >= target then s else Repeat(fill, target - |s|) + s
  }

  /** The value of a string of decimal digits, read left to right. */
  function DigitsValue(s: string): nat
    requires AllDigits(s)
  {
    if s == [] then 0
    else DigitsValue(s[..|s| - 1]) * 10 + (s[|s| - 1] as int - '0' as int)
  }

  /** Reading back the digits `toString` writes gives the number again. */
  lemma {:induction false} DigitsValueOfDecimalDigits(n: nat)
    ensures DigitsValue(DecimalDigits(n)) == n
  {
    var r := DecimalDigits(n);
    if n < 10 {
      assert r[..|r| - 1] == [];
    } else {
      var front := DecimalDigits(n / 10);
      assert r[..|r| - 1] == front;
      DigitsValueOfDecimalDigits(n / 10);
    }
  }

  /** Leading zeros, such as those `padStart(2, '0')` adds, do not change the value read. */
  lemma {:induction false} LeadingZerosIgnored(z: nat, s: string)
    requires AllDigits(s)
    ensures AllDigits(Repeat('0', z) + s)
    ensures DigitsValue(Repeat('0', z) + s) == DigitsValue(s)
  {
    var p := Repeat('0', z) + s;
    if s == [] {
      assert p == Repeat('0', z);
      ZerosReadAsZero(z);
    } else {
      assert p[..|p| - 1] == Repeat('0', z) + s[..|s| - 1];
      LeadingZerosIgnored(z, s[..|s| - 1]);
    }
  }

  lemma {:induction false} ZerosReadAsZero(z: nat)
    ensures AllDigits(Repeat('0', z)) && DigitsValue(Repeat('0', z)) == 0
  {
    if z > 0 {
      var p := Repeat('0', z);
      assert p[..|p| - 1] == Repeat('0', z - 1) by {
        assert p == Repeat('0', z - 1) + ['0'];
      }
      ZerosReadAsZero(z - 1);
    }
  }
}
