/**
 * `formatTime`: milliseconds rendered as `HH:MM:SS`, with JavaScript's
 * `Math.floor` and its truncating `%` written out.
 */
module TimeFormat {
  import opened JsText

  /** `Math.floor(a / b)` for a positive divisor. */
  function FloorDiv(a: int, b: int): (q: int)
    requires b > 0
    ensures b * q <= a < b * q + b
  {
    a / b
  }

  /** The quotient JavaScript's `%` pairs with: `a / b` truncated toward zero. */
  function TruncDiv(a: int, b: int): (q: int)
    requires b > 0
    ensures a >= 0 ==> q >= 0
    ensures a < 0 ==> q <= 0
  {
    if a >= 0 then a / b else -((-a) / b)
  }

  /** JavaScript's `a % b` for a positive divisor: the remainder takes the sign of `a`. */
  function JsRemainder(a: int, b: int): (r: int)
    requires b > 0
    ensures a >= 0 ==> 0 <= r < b
    ensures a < 0 ==> -b < r <= 0
  {
    if a >= 0 then a % b else -((-a) % b)
  }

  /** The remainder is what the truncated quotient leaves of `a`, so it is fixed by `a` and `b`. */
  lemma JsRemainderQuotient(a: int, b: int)
    requires b > 0
    ensures a == b * TruncDiv(a, b) + JsRemainder(a, b)
  {
    if a < 0 {
      assert -a == b * ((-a) / b) + (-a) % b;
    }
  }

  /** The number of seconds that `hours`, `minutes` and `seconds` add up to. */
  function ClockSeconds(hours: int, minutes: int, seconds: int): int {
    hours * 3600 + minutes * 60 + seconds
  }

  /** Whole seconds of `milliseconds`, then hours, minutes and seconds, as computed before rendering. */
  function ClockFields(milliseconds: int): (f: (int, int, int))
    ensures milliseconds >= 0 ==>
      && f.0 >= 0 && 0 <= f.1 < 60 && 0 <= f.2 < 60
      && ClockSeconds(f.0, f.1, f.2) == milliseconds / 1000
  {
    var totalSeconds := FloorDiv(milliseconds, 1000);
    var hours := FloorDiv(totalSeconds, 3600);
    var minutes := FloorDiv(JsRemainder(totalSeconds, 3600), 60);
    var seconds := JsRemainder(totalSeconds, 60);
    (hours, minutes, seconds)
  }

  /** `n.toString().padStart(2, '0')`. */
  function Pad2(n: int): (r: string)
    ensures |r| >= 2
    ensures n >= 0 ==> AllDigits(r) && DigitsValue(r) == n
    ensures 0 <= n < 100 ==> |r| == 2
    ensures n >= 0 && |r| > 2 ==> r[0] != '0'
  {
    var digits := NumberToString(n);
    var r := PadStart(digits, 2, '0');
    if n >= 0 then
      DigitsValueOfDecimalDigits(n);
      assert r == Repeat('0', |r| - |digits|) + digits;
      LeadingZerosIgnored(|r| - |digits|, digits);
      r
    else r
  }

  /** `formatTime(milliseconds)`. */
  function FormatTime(milliseconds: int): (r: string)
    ensures |r| >= 8
  {
    var f := ClockFields(milliseconds);
    Pad2(f.0) + ":" + Pad2(f.1) + ":" + Pad2(f.2)
  }

  /**
   * `r` is `H:MM:SS` for `totalSeconds`: the hours field is every digit
   * before the second colon from the end, at least two of them and with no
   * leading zero beyond those two, the minutes and seconds fields are two
   * digits each and below 60, and together they add up to `totalSeconds`.
   */
  predicate ReadsAsClock(r: string, totalSeconds: int) {
    var n := |r|;
    && n >= 8 && r[n - 6] == ':' && r[n - 3] == ':'
    && (n == 8 || r[0] != '0')
    && AllDigits(r[..n - 6]) && AllDigits(r[n - 5..n - 3]) && AllDigits(r[n - 2..])
    && DigitsValue(r[n - 5..n - 3]) < 60 && DigitsValue(r[n - 2..]) < 60
    && ClockSeconds(DigitsValue(r[..n - 6]), DigitsValue(r[n - 5..n - 3]), DigitsValue(r[n - 2..]))
       == totalSeconds
  }

  /**
   * For a non-negative duration the rendered text reads back to the whole
   * seconds it stands for; hours are never cut to two digits.
   */
  lemma FormatTimeReadsBack(milliseconds: int)
    requires milliseconds >= 0
    ensures ReadsAsClock(FormatTime(milliseconds), milliseconds / 1000)
  {
    var f := ClockFields(milliseconds);
    var h, m, s := Pad2(f.0), Pad2(f.1), Pad2(f.2);
    FieldsReadBack(h, m, s, f.0, f.1, f.2);
  }

  /** Digit fields joined by colons read back to the seconds their values add up to. */
  lemma FieldsReadBack(h: string, m: string, s: string, hours: int, minutes: int, seconds: int)
    requires AllDigits(h) && AllDigits(m) && AllDigits(s) && |h| >= 2 && |m| == 2 && |s| == 2
    requires |h| == 2 || h[0] != '0'
    requires DigitsValue(h) == hours && DigitsValue(m) == minutes && DigitsValue(s) == seconds
    requires minutes < 60 && seconds < 60
    ensures ReadsAsClock(h + ":" + m + ":" + s, ClockSeconds(hours, minutes, seconds))
  {
    var r := h + ":" + m + ":" + s;
    ClockLayout(r, h, m, s);
    var n := |r|;
    assert n >= 8 && r[n - 6] == ':' && r[n - 3] == ':';
    assert r[..n - 6] == h && r[n - 5..n - 3] == m && r[n - 2..] == s;
    assert r[0] == h[0];
    assert DigitsValue(r[..n - 6]) == hours;
    assert DigitsValue(r[n - 5..n - 3]) == minutes && DigitsValue(r[n - 2..]) == seconds;
  }

  /** Where the fields sit in `h + ":" + m + ":" + s` when the last two are two characters wide. */
  lemma ClockLayout(r: string, h: string, m: string, s: string)
    requires |m| == 2 && |s| == 2
    requires r == h + ":" + m + ":" + s
    ensures |r| == |h| + 6 && r[|r| - 6] == ':' && r[|r| - 3] == ':'
    ensures r[..|r| - 6] == h && r[|r| - 5..|r| - 3] == m && r[|r| - 2..] == s
  {
    assert r == (h + ":") + (m + ":" + s);
    assert r[..|h|] == h;
    assert r[|h| + 1..] == m + ":" + s;
    var hs, ms, ss := r[..|r| - 6], r[|r| - 5..|r| - 3], r[|r| - 2..];
    assert hs == h && ms == m && ss == s;
  }
}
