/** gas_aggregation_script.js, `timeToMinutes_` and `calculateTotalHour_`: clock
    strings to minutes and the work time of a shift. JavaScript's `parseInt(s, 10)`
    and `parseFloat(s)` read the longest numeric prefix after leading white space,
    and give NaN (here None) when there is none. Numbers are exact here: the
    binary floating point of `parseFloat` and the `toFixed(2)` rendering of the
    hours are not modelled. */
module GasTime {
  import opened Wrappers
  import opened Text

  /** The white space `parseInt` / `parseFloat` skip: TAB, VT, FF, the BOM, every
      space separator (U+0020, U+00A0, U+1680, U+2000 to U+200A, U+202F, U+205F,
      U+3000) and the line terminators LF, CR, U+2028 and U+2029. */
  predicate IsJsSpace(c: char) {
    c == ' ' || c == '\t' || c == '\n' || c == '\r' || c == '\U{000B}' || c == '\U{000C}' ||
    c == '\U{00A0}' || c == '\U{FEFF}' || c == '\U{1680}' || ('\U{2000}' <= c <= '\U{200A}') ||
    c == '\U{2028}' || c == '\U{2029}' || c == '\U{202F}' || c == '\U{205F}' || c == '\U{3000}'
  }

  function TrimStart(s: string): (r: string)
    ensures |r| <= |s| && (|r| > 0 ==> !IsJsSpace(r[0]))
  {
    if |s| > 0 && IsJsSpace(s[0]) then TrimStart(s[1..]) else s
  }

  /** The length of the run of digits that starts s. */
  function DigitRun(s: string): (n: nat)
    ensures n <= |s|
  {
    if |s| > 0 && IsDigit(s[0]) then 1 + DigitRun(s[1..]) else 0
  }

  /** The run is all digits and cannot be extended. */
  lemma {:induction false} DigitRunSpec(s: string)
    ensures AllDigits(s[..DigitRun(s)])
    ensures DigitRun(s) < |s| ==> !IsDigit(s[DigitRun(s)])
  {
    if |s| > 0 && IsDigit(s[0]) {
      DigitRunSpec(s[1..]);
      assert s[..DigitRun(s)] == [s[0]] + s[1..][..DigitRun(s[1..])];
    }
  }

  /** The value of the first n characters of s read as decimal digits, most
      significant first (only meaningful when they are digits). */
  function PrefixValue(s: string, n: nat): int
    requires n <= |s|
  {
    if n == 0 then 0 else PrefixValue(s, n - 1) * 10 + (s[n - 1] as int - '0' as int)
  }

  lemma {:induction false} PrefixValueDigits(s: string, n: nat)
    requires n <= |s| && AllDigits(s[..n])
    ensures PrefixValue(s, n) == DigitsValue(s[..n])
  {
    if n > 0 {
      assert s[..n][..n - 1] == s[..n - 1];
      PrefixValueDigits(s, n - 1);
    }
  }

  /** Leading white space, the ideographic space U+3000 included, is skipped. */
  lemma ParseIntSkipsSpace(c: char, s: string)
    requires IsJsSpace(c)
    ensures ParseInt([c] + s) == ParseInt(s)
  {
    assert ([c] + s)[1..] == s;
  }

  /** An unsigned run of digits followed by anything: its value. */
  function UnsignedPrefix(s: string): Option<int> {
    var n := DigitRun(s);
    if n == 0 then None else Some(PrefixValue(s, n))
  }

  /** The length (0 or 1) of the sign that t starts with. */
  function SignLength(t: string): (k: nat)
    ensures k <= |t|
  {
    if |t| > 0 && (t[0] == '-' || t[0] == '+') then 1 else 0
  }

  /** `parseInt(s, 10)`: white space, an optional sign, then at least one digit. */
  function ParseInt(s: string): Option<int> {
    var t := TrimStart(s);
    match UnsignedPrefix(t[SignLength(t)..])
    case None => None
    case Some(v) => if |t| > 0 && t[0] == '-' then Some(-v) else Some(v)
  }

  /** A digit string read by `parseInt` is its decimal value. */
  lemma ParseIntDigits(d: string)
    requires |d| > 0 && AllDigits(d)
    ensures ParseInt(d) == Some(DigitsValue(d))
  {
    assert TrimStart(d) == d;
    assert d[SignLength(d)..] == d;
    DigitRunOf(d, "");
    assert d + "" == d;
    PrefixValueDigits(d, |d|);
    assert d[..|d|] == d;
  }

  lemma {:induction false} DigitRunOf(d: string, rest: string)
    requires AllDigits(d) && (|rest| == 0 || !IsDigit(rest[0]))
    ensures DigitRun(d + rest) == |d| && (d + rest)[..|d|] == d
  {
    if |d| > 0 {
      assert (d + rest)[1..] == d[1..] + rest;
      DigitRunOf(d[1..], rest);
    } else {
      assert d + rest == rest;
    }
  }

  // ----- `timeString.split(':')` -----

  /** The position of the first ':' in s, or |s| if there is none. */
  function ColonAt(s: string): (i: nat)
    ensures i <= |s|
  {
    if |s| == 0 || s[0] == ':' then 0 else 1 + ColonAt(s[1..])
  }

  /** No ':' comes before that position, and one is at it unless it is the end. */
  lemma {:induction false} ColonAtSpec(s: string)
    ensures ':' !in s[..ColonAt(s)]
    ensures ColonAt(s) < |s| ==> s[ColonAt(s)] == ':'
  {
    if |s| > 0 && s[0] != ':' {
      ColonAtSpec(s[1..]);
      assert s[..ColonAt(s)] == [s[0]] + s[1..][..ColonAt(s[1..])];
    }
  }

  /** `parts[0]` */
  function FirstPart(s: string): string {
    s[..ColonAt(s)]
  }

  /** `parts[1]`, undefined (None) when s has no ':' */
  function SecondPart(s: string): Option<string> {
    var i := ColonAt(s);
    if i == |s| then None else Some(FirstPart(s[i + 1..]))
  }

  /** `parts[1] || 0` read by `parseInt`: an absent or empty minute part is 0. */
  function MinutePart(part: Option<string>): Option<int> {
    match part
    case None => Some(0)
    case Some(m) => if m == "" then Some(0) else ParseInt(m)
  }

  /** `timeToMinutes_(timeString)`: hours before the first ':', minutes after it
      (up to a second ':'); NaN when either part has no leading number. */
  function TimeToMinutes(s: string): Option<int> {
    var hours := ParseInt(FirstPart(s));
    var minutes := MinutePart(SecondPart(s));
    if hours.Some? && minutes.Some? then Some(hours.value * 60 + minutes.value) else None
  }

  lemma {:induction false} ColonAtNoColon(h: string, rest: string)
    requires ':' !in h && |rest| > 0 && rest[0] == ':'
    ensures ColonAt(h + rest) == |h| && (h + rest)[..|h|] == h
  {
    if |h| > 0 {
      assert (h + rest)[1..] == h[1..] + rest;
      assert h[0] in h;
      ColonAtNoColon(h[1..], rest);
    } else {
      assert h + rest == rest;
    }
  }

  lemma {:induction false} ColonAtNone(h: string)
    requires ':' !in h
    ensures ColonAt(h) == |h|
  {
    if |h| > 0 {
      assert h[0] in h;
      assert forall c :: c in h[1..] ==> c in h;
      ColonAtNone(h[1..]);
    }
  }

  lemma DigitsNoColon(d: string)
    requires AllDigits(d)
    ensures ':' !in d
  {
  }

  /** "H:M" with digit runs H and M, of values hv and mv, is hv·60+mv minutes. */
  lemma TimeToMinutesHM(h: string, m: string, hv: nat, mv: nat)
    requires |h| > 0 && AllDigits(h) && DigitsValue(h) == hv
    requires |m| > 0 && AllDigits(m) && DigitsValue(m) == mv
    ensures TimeToMinutes(h + ":" + m) == Some(hv * 60 + mv)
  {
    SplitAtColon(h, m);
    ParseIntDigits(h);
    ParseIntDigits(m);
  }

  /** "H:M" splits into H and M when neither holds a ':'. */
  lemma SplitAtColon(h: string, m: string)
    requires AllDigits(h) && AllDigits(m)
    ensures FirstPart(h + ":" + m) == h && SecondPart(h + ":" + m) == Some(m)
  {
    DigitsNoColon(h);
    DigitsNoColon(m);
    var s := h + ":" + m;
    assert s == h + (":" + m);
    ColonAtNoColon(h, ":" + m);
    assert s[|h| + 1..] == m;
    ColonAtNone(m);
    assert m[..|m|] == m;
  }

  /** Written as `Decimal(h) + ":" + Decimal(m)`, a time reads back as h·60+m. */
  lemma TimeToMinutesDecimal(h: nat, m: nat)
    ensures TimeToMinutes(Decimal(h) + ":" + Decimal(m)) == Some(h * 60 + m)
  {
    DecimalRoundTrip(h);
    DecimalRoundTrip(m);
    TimeToMinutesHM(Decimal(h), Decimal(m), h, m);
  }

  /** Without a minute part, "H" is H·60 minutes. */
  lemma TimeToMinutesHoursOnly(h: string)
    requires |h| > 0 && AllDigits(h)
    ensures TimeToMinutes(h) == Some(DigitsValue(h) * 60)
  {
    DigitsNoColon(h);
    ColonAtNone(h);
    assert FirstPart(h) == h;
    ParseIntDigits(h);
  }

  // ----- `parseFloat` and the work time -----

  /** Value of the fraction digits d, as in "0.d". */
  function FractionValue(d: string): real
  {
    if |d| == 0 then 0.0
    else ((d[0] as int - '0' as int) as real + FractionValue(d[1..])) / 10.0
  }

  /** An unsigned decimal prefix "D", "D.F" or ".F" (D, F digit runs). */
  function UnsignedDecimal(s: string): Option<real> {
    var n := DigitRun(s);
    var whole := PrefixValue(s, n) as real;
    if n < |s| && s[n] == '.' then
      var f := DigitRun(s[n + 1..]);
      if n == 0 && f == 0 then None
      else Some(whole + FractionValue(s[n + 1..][..f]))
    else if n == 0 then None
    else Some(whole)
  }

  /** `parseFloat(s)` for decimal text (exponents and "Infinity" are not modelled). */
  function ParseFloat(s: string): Option<real> {
    var t := TrimStart(s);
    match UnsignedDecimal(t[SignLength(t)..])
    case None => None
    case Some(v) => if |t| > 0 && t[0] == '-' then Some(-v) else Some(v)
  }

  /** `parseFloat(breakHour) * 60 || 0`: break hours in minutes; an absent, empty
      or non-numeric break counts as 0. */
  function BreakMinutes(breakHour: Option<string>): (r: real)
    ensures breakHour.None? ==> r == 0.0
  {
    match breakHour
    case None => 0.0
    case Some(b) => match ParseFloat(b) case Some(v) => v * 60.0 case None => 0.0
  }

  /** What `calculateTotalHour_` computes before rendering: `Blank` when reading a
      time throws (an absent start or end: `undefined.split`), which the function
      turns into ''; otherwise the total minutes, None when NaN. */
  datatype TotalMinutes = Blank | Minutes(value: Option<real>)

  function CalculateTotalMinutes(start: Option<string>, end: Option<string>, breakHour: Option<string>)
    : (r: TotalMinutes)
    ensures r.Blank? <==> start.None? || end.None?
    ensures r.Minutes? ==> (r.value.None? <==> TimeToMinutes(start.value).None? || TimeToMinutes(end.value).None?)
  {
    if start.None? || end.None? then Blank
    else
      var s := TimeToMinutes(start.value);
      var e := TimeToMinutes(end.value);
      if s.Some? && e.Some? then Minutes(Some(e.value as real - s.value as real - BreakMinutes(breakHour)))
      else Minutes(None)
  }

  /** Once both clock strings read as minutes, the total is end minus start minus
      the break; used with `TimeToMinutesHM` and `BreakDigits` / `BlankBreak`,
      "09:00"–"18:00" with break "1" is 480 minutes. */
  lemma TotalMinutesOfReadTimes(start: string, end: string, breakHour: Option<string>, s: int, e: int, brk: int)
    requires TimeToMinutes(start) == Some(s) && TimeToMinutes(end) == Some(e)
    requires BreakMinutes(breakHour) == brk as real
    ensures CalculateTotalMinutes(Some(start), Some(end), breakHour) == Minutes(Some((e - s - brk) as real))
  {
  }

  lemma BreakDigits(b: string)
    requires |b| > 0 && AllDigits(b)
    ensures BreakMinutes(Some(b)) == (DigitsValue(b) * 60) as real
  {
    ParseFloatDigits(b);
  }

  /** After white space and an optional sign, the text starts a number: a digit,
      or a point followed by a digit. */
  predicate NumericStart(s: string) {
    var t := TrimStart(s);
    var u := t[SignLength(t)..];
    |u| > 0 && (IsDigit(u[0]) || (|u| > 1 && u[0] == '.' && IsDigit(u[1])))
  }

  /** `parseFloat` gives NaN exactly when the text does not start a number. */
  lemma ParseFloatNaN(s: string)
    ensures ParseFloat(s).None? <==> !NumericStart(s)
  {
    var t := TrimStart(s);
    var u := t[SignLength(t)..];
    if |u| > 0 && IsDigit(u[0]) {
      assert DigitRun(u) > 0;
    } else if |u| > 1 && u[0] == '.' && IsDigit(u[1]) {
      assert DigitRun(u) == 0;
      assert u[1..][0] == u[1];
      assert DigitRun(u[1..]) > 0;
    } else {
      assert DigitRun(u) == 0;
      if |u| > 0 && u[0] == '.' {
        assert DigitRun(u[1..]) == 0;
      }
    }
  }

  /** A break that does not start a number (empty, blank, "-", ".", "+x", "x")
      counts as 0 (`NaN * 60 || 0`). */
  lemma BlankBreak(b: string)
    requires !NumericStart(b)
    ensures BreakMinutes(Some(b)) == 0 as real
  {
    ParseFloatNaN(b);
  }

  /** A digit run read by `parseFloat` is its decimal value. */
  lemma ParseFloatDigits(d: string)
    requires |d| > 0 && AllDigits(d)
    ensures ParseFloat(d) == Some(DigitsValue(d) as real)
  {
    assert TrimStart(d) == d;
    DigitRunOf(d, "");
    assert d + "" == d;
    assert d[SignLength(d)..] == d;
    PrefixValueDigits(d, |d|);
    assert d[..|d|] == d;
  }
}
