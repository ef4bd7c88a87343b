/**
 * Progress scraping in the download worker (public/download_worker.php): a
 * hand-written matcher for the pattern `\[download\]\s+(\d+(?:\.\d+)?)%`,
 * the map of the tool's 0-100 onto the job's 5-95 band, PHP's `round()`,
 * and the values the read loop writes when it only writes on strict increase.
 */
module ProgressLine {
  import opened Wrappers
  import Php

  const Marker := "[download]"

  /** The value of one ASCII digit. */
  function DigitValue(c: char): nat
    requires Php.IsDigit(c)
  {
    c as int - '0' as int
  }

  /** The value of a string of ASCII digits, most significant first (leading zeros allowed). */
  function DigitsValue(ds: string): nat
    requires forall i :: 0 <= i < |ds| ==> Php.IsDigit(ds[i])
    decreases |ds|
  {
    if ds == [] then 0 else DigitsValue(ds[..|ds| - 1]) * 10 + DigitValue(ds[|ds| - 1])
  }

  function Pow10(n: nat): (r: nat)
    ensures r >= 1
  {
    if n == 0 then 1 else 10 * Pow10(n - 1)
  }

  /** The first position at or after `i` whose character does not satisfy `p` (a greedy `p*`). */
  function SkipWhile(s: string, i: nat, p: char -> bool): (j: nat)
    requires i <= |s|
    ensures i <= j <= |s|
    ensures forall k :: i <= k < j ==> p(s[k])
    ensures j < |s| ==> !p(s[j])
    decreases |s| - i
  {
    if i < |s| && p(s[i]) then SkipWhile(s, i + 1, p) else i
  }

  /** The value of `whole.frac` when `frac` has `places` digits. */
  function Fraction(whole: nat, frac: nat, places: nat): (r: real)
    ensures r >= 0.0
  {
    whole as real + frac as real / Pow10(places) as real
  }

  /** `\d+(?:\.\d+)?%` at the start of `s`: the number it captures, if it matches. */
  function NumberAt(s: string): (r: Option<real>)
    ensures r.Some? ==> r.value >= 0.0
  {
    var e := SkipWhile(s, 0, Php.IsDigit);
    if e == 0 then None
    else
      var whole := DigitsValue(s[..e]) as real;
      if e < |s| && s[e] == '%' then Some(whole)
      else if e < |s| && s[e] == '.' then
        var f := SkipWhile(s, e + 1, Php.IsDigit);
        if f > e + 1 && f < |s| && s[f] == '%' then
          Some(Fraction(DigitsValue(s[..e]), DigitsValue(s[e + 1..f]), f - e - 1))
        else None
      else None
  }

  /** `\s+` followed by a number, at the start of `s`. */
  function SpacedNumberAt(s: string): (r: Option<real>)
    ensures r.Some? ==> r.value >= 0.0
  {
    var d := SkipWhile(s, 0, Php.IsSpace);
    if d == 0 then None else NumberAt(s[d..])
  }

  /** The number captured when the whole pattern matches starting exactly at position `i`. */
  function MatchAt(line: string, i: nat): (r: Option<real>)
    requires i <= |line|
    ensures r.Some? ==> r.value >= 0.0
  {
    if Marker <= line[i..] then SpacedNumberAt(line[i + |Marker|..]) else None
  }

  /** The leftmost match at or after position `i`. */
  function ParseFrom(line: string, i: nat): (r: Option<real>)
    requires i <= |line|
    ensures r.Some? ==> r.value >= 0.0
    decreases |line| - i
  {
    if i == |line| then None
    else match MatchAt(line, i)
      case Some(p) => Some(p)
      case None => ParseFrom(line, i + 1)
  }

  /** `preg_match` of the progress pattern on one output line, giving `floatval` of the capture. */
  function ParseProgress(line: string): (r: Option<real>)
    ensures r.Some? ==> r.value >= 0.0
  {
    ParseFrom(line, 0)
  }

  function DigitChar(d: nat): (c: char)
    requires d < 10
    ensures Php.IsDigit(c) && DigitValue(c) == d
  {
    ('0' as int + d) as char
  }

  /** The decimal representation of `n`, without leading zeros. */
  function Decimal(n: nat): (s: string)
    ensures |s| >= 1
    ensures forall i :: 0 <= i < |s| ==> Php.IsDigit(s[i])
  {
    if n < 10 then [DigitChar(n)] else Decimal(n / 10) + [DigitChar(n % 10)]
  }

  /** Reading back a decimal representation gives the number. */
  lemma {:induction false} DecimalValue(n: nat)
    ensures DigitsValue(Decimal(n)) == n
  {
    if n >= 10 {
      var s := Decimal(n);
      assert s[..|s| - 1] == Decimal(n / 10);
      DecimalValue(n / 10);
    }
  }

  /** A greedy scan stops exactly at the first character that fails `p`. */
  lemma {:induction false} SkipWhileStopsAt(s: string, i: nat, j: nat, p: char -> bool)
    requires i <= j <= |s|
    requires forall k :: i <= k < j ==> p(s[k])
    requires j == |s| || !p(s[j])
    ensures SkipWhile(s, i, p) == j
    decreases j - i
  {
    if i < j {
      SkipWhileStopsAt(s, i + 1, j, p);
    }
  }

  /** White space only, at least one character: the padding the tool puts before a percentage. */
  predicate IsPadding(sp: string) {
    |sp| >= 1 && forall i :: 0 <= i < |sp| ==> Php.IsSpace(sp[i])
  }

  /** The percentage as the tool prints it: the whole part, then a dot and one decimal unless it is a whole number. */
  function PercentText(whole: nat, tenths: Option<nat>): string
    requires tenths.Some? ==> tenths.value < 10
  {
    Decimal(whole) + (if tenths.Some? then "." + [DigitChar(tenths.value)] else "") + "%"
  }

  /** The value the tool reports with `PercentText(whole, tenths)`. */
  function ToolValue(whole: nat, tenths: Option<nat>): real {
    whole as real + (if tenths.Some? then tenths.value as real / 10.0 else 0.0)
  }

  /**
   * A progress line as the download tool prints it: the marker, the padding of
   * the right-aligned percentage (`[download]   5.3%`, `[download]  45.2%`,
   * `[download] 100%`), the percentage, then anything.
   */
  function ToolLine(sp: string, whole: nat, tenths: Option<nat>, rest: string): string
    requires tenths.Some? ==> tenths.value < 10
  {
    Marker + sp + PercentText(whole, tenths) + rest
  }

  /** A number with a fraction: digits up to `e`, a dot, digits up to `f`, then `%`. */
  lemma NumberAtFraction(s: string, e: nat, f: nat)
    requires 0 < e && e + 1 < f < |s|
    requires SkipWhile(s, 0, Php.IsDigit) == e && s[e] == '.'
    requires SkipWhile(s, e + 1, Php.IsDigit) == f && s[f] == '%'
    ensures NumberAt(s) == Some(Fraction(DigitsValue(s[..e]), DigitsValue(s[e + 1..f]), f - e - 1))
  {
  }

  /** Where the scans stop in the number part of a tool line. */
  lemma ToolNumberLayout(s: string, digits: string, d: char, rest: string)
    requires |digits| >= 1 && forall i :: 0 <= i < |digits| ==> Php.IsDigit(digits[i])
    requires Php.IsDigit(d)
    requires s == digits + "." + [d] + "%" + rest
    ensures |digits| + 2 < |s| && s[|digits|] == '.' && s[|digits| + 2] == '%'
    ensures SkipWhile(s, 0, Php.IsDigit) == |digits| && SkipWhile(s, |digits| + 1, Php.IsDigit) == |digits| + 2
    ensures s[..|digits|] == digits && s[|digits| + 1..|digits| + 2] == [d]
  {
    var e := |digits|;
    assert s[..e] == digits;
    assert s[e] == '.' && s[e + 1] == d && s[e + 2] == '%';
    SkipWhileStopsAt(s, 0, e, Php.IsDigit);
    SkipWhileStopsAt(s, e + 1, e + 2, Php.IsDigit);
  }

  /** The number part of a tool line reads back as its value. */
  lemma NumberAtDecimal(whole: nat, tenths: nat, rest: string)
    requires tenths < 10
    ensures NumberAt(Decimal(whole) + "." + [DigitChar(tenths)] + "%" + rest) == Some(whole as real + tenths as real / 10.0)
  {
    var digits := Decimal(whole);
    var t := [DigitChar(tenths)];
    var s := digits + "." + t + "%" + rest;
    var e := |digits|;
    ToolNumberLayout(s, digits, DigitChar(tenths), rest);
    NumberAtFraction(s, e, e + 2);
    DecimalValue(whole);
    assert DigitsValue(t) == tenths by {
      assert t[..0] == [];
    }
    assert Pow10(1) == 10;
  }

  /** The marker occurs in `line` at position `k`. */
  predicate MarkerAt(line: string, k: nat) {
    k + |Marker| <= |line| && line[k..k + |Marker|] == Marker
  }

  /** The marker occurs in `line` at or after position `i`. */
  predicate HasMarkerFrom(line: string, i: nat) {
    exists k: nat :: i <= k <= |line| && MarkerAt(line, k)
  }

  /** A match found from position `i` on starts with the marker at some position from `i` on. */
  lemma {:induction false} ParseFromNeedsMarker(line: string, i: nat)
    requires i <= |line|
    requires ParseFrom(line, i).Some?
    ensures HasMarkerFrom(line, i)
    decreases |line| - i
  {
    if MatchAt(line, i).Some? {
      assert Marker <= line[i..];
      assert line[i..i + |Marker|] == Marker;
      assert MarkerAt(line, i);
    } else {
      ParseFromNeedsMarker(line, i + 1);
    }
  }

  /** Only a line containing `[download]` is a progress line: every other line parses to nothing. */
  lemma ProgressLinesHaveMarker(line: string)
    ensures ParseProgress(line).Some? ==> HasMarkerFrom(line, 0)
  {
    if ParseProgress(line).Some? {
      ParseFromNeedsMarker(line, 0);
    }
  }

  /** A whole number followed by `%` reads back as its value. */
  lemma NumberAtWhole(whole: nat, rest: string)
    ensures NumberAt(Decimal(whole) + "%" + rest) == Some(whole as real)
  {
    var digits := Decimal(whole);
    var s := digits + "%" + rest;
    var e := |digits|;
    assert s[..e] == digits && s[e] == '%';
    SkipWhileStopsAt(s, 0, e, Php.IsDigit);
    DecimalValue(whole);
  }

  /** The percentage text reads back as its value, and starts with a digit. */
  lemma PercentValue(whole: nat, tenths: Option<nat>, rest: string)
    requires tenths.Some? ==> tenths.value < 10
    ensures Php.IsDigit((PercentText(whole, tenths) + rest)[0])
    ensures NumberAt(PercentText(whole, tenths) + rest) == Some(ToolValue(whole, tenths))
  {
    if tenths.Some? {
      assert PercentText(whole, tenths) + rest == Decimal(whole) + "." + [DigitChar(tenths.value)] + "%" + rest;
      NumberAtDecimal(whole, tenths.value, rest);
    } else {
      assert PercentText(whole, tenths) + rest == Decimal(whole) + "%" + rest;
      NumberAtWhole(whole, rest);
    }
  }

  /** Padding before a number is skipped by `\s+`. */
  lemma PaddedNumber(sp: string, number: string)
    requires IsPadding(sp) && |number| > 0 && Php.IsDigit(number[0])
    ensures SpacedNumberAt(sp + number) == NumberAt(number)
  {
    var spaced := sp + number;
    assert forall k :: 0 <= k < |sp| ==> spaced[k] == sp[k];
    assert spaced[|sp|] == number[0];
    SkipWhileStopsAt(spaced, 0, |sp|, Php.IsSpace);
    assert spaced[|sp|..] == number;
  }

  /** The matcher reads back the percentage of every line the tool prints, whatever its padding, with or without a decimal. */
  lemma ParseToolLine(sp: string, whole: nat, tenths: Option<nat>, rest: string)
    requires IsPadding(sp) && (tenths.Some? ==> tenths.value < 10)
    ensures ParseProgress(ToolLine(sp, whole, tenths, rest)) == Some(ToolValue(whole, tenths))
  {
    var number := PercentText(whole, tenths) + rest;
    var line := ToolLine(sp, whole, tenths, rest);
    assert line == Marker + (sp + number);
    assert Marker <= line[0..];
    assert line[|Marker|..] == sp + number;
    PercentValue(whole, tenths, rest);
    PaddedNumber(sp, number);
    assert MatchAt(line, 0) == Some(ToolValue(whole, tenths));
  }

  /** `min(95, 5 + p * 0.9)`: the tool's percentage mapped onto the 5-95 band. */
  function MappedPercent(p: real): (m: real)
    requires p >= 0.0
    ensures 5.0 <= m <= 95.0
    ensures p <= 100.0 ==> m == 5.0 + p * 0.9
    ensures p >= 100.0 ==> m == 95.0
  {
    if 5.0 + p * 0.9 < 95.0 then 5.0 + p * 0.9 else 95.0
  }

  /** More progress reported by the tool never maps to less. */
  lemma MappedMonotone(p: real, q: real)
    requires 0.0 <= p <= q
    ensures MappedPercent(p) <= MappedPercent(q)
  {
  }

  /** PHP's `round()` to an integer: halves go away from zero. */
  function Round(x: real): int {
    if x >= 0.0 then (x + 0.5).Floor else -((-x + 0.5).Floor)
  }

  /** Rounding never reverses the order of two non-negative values. */
  lemma RoundMonotone(x: real, y: real)
    requires 0.0 <= x <= y
    ensures Round(x) <= Round(y)
  {
  }

  /** A value in the 5-95 band rounds into it. */
  lemma RoundInBand(x: real)
    requires 5.0 <= x <= 95.0
    ensures 5 <= Round(x) <= 95
  {
    RoundMonotone(5.0, x);
    RoundMonotone(x, 95.0);
  }

  /** The parse result of every line the read loop gets, in order. */
  function Parsed(lines: seq<string>): (ps: seq<Option<real>>)
    ensures |ps| == |lines|
    ensures forall i :: 0 <= i < |lines| ==> ps[i] == ParseProgress(lines[i])
    ensures Parses(ps)
  {
    seq(|lines|, i requires 0 <= i < |lines| => ParseProgress(lines[i]))
  }

  /** What the loop writes after a line that parsed to `parsed` when `last` is `$lastPercent`: the new value, only if it is larger. */
  function Step(last: real, parsed: Option<real>): (w: Option<real>)
    requires parsed.Some? ==> parsed.value >= 0.0
    ensures w.Some? ==> last < w.value && 5.0 <= w.value <= 95.0
  {
    match parsed
    case Some(p) => if MappedPercent(p) > last then Some(MappedPercent(p)) else None
    case None => None
  }

  /** Only what a progress line can yield: nothing, or a non-negative number. */
  ghost predicate Parses(ps: seq<Option<real>>) {
    forall i :: 0 <= i < |ps| && ps[i].Some? ==> ps[i].value >= 0.0
  }

  /** `$lastPercent` after the loop has handled lines that parsed to `ps`, starting from `start`. */
  function LastAfter(ps: seq<Option<real>>, start: real): real
    requires Parses(ps)
    decreases |ps|
  {
    if ps == [] then start
    else
      var prev := LastAfter(ps[..|ps| - 1], start);
      match Step(prev, ps[|ps| - 1])
      case Some(w) => w
      case None => prev
  }

  /** The (unrounded) percentages the loop writes while handling lines that parsed to `ps`, in order. */
  function WritesAfter(ps: seq<Option<real>>, start: real): seq<real>
    requires Parses(ps)
    decreases |ps|
  {
    if ps == [] then []
    else
      var prev := LastAfter(ps[..|ps| - 1], start);
      var earlier := WritesAfter(ps[..|ps| - 1], start);
      match Step(prev, ps[|ps| - 1])
      case Some(w) => earlier + [w]
      case None => earlier
  }

  /** The written values rise strictly, stay above the start and within 95, and the last one is `$lastPercent`. */
  lemma {:induction false} WritesAscend(ps: seq<Option<real>>, start: real)
    requires Parses(ps)
    ensures var w := WritesAfter(ps, start);
            && (forall i :: 0 <= i < |w| ==> start < w[i] && 5.0 <= w[i] <= 95.0)
            && (forall i, j :: 0 <= i < j < |w| ==> w[i] < w[j])
            && LastAfter(ps, start) == (if w == [] then start else w[|w| - 1])
  {
    if ps != [] {
      WritesAscend(ps[..|ps| - 1], start);
    }
  }

  /** The stored (rounded) percentages. */
  function Rounded(ws: seq<real>): (r: seq<int>)
    ensures |r| == |ws|
    ensures forall i :: 0 <= i < |ws| ==> r[i] == Round(ws[i])
  {
    seq(|ws|, i requires 0 <= i < |ws| => Round(ws[i]))
  }

  /** The stored percentages of one job's read loop never go down and stay in the 5-95 band. */
  lemma StoredPercentsMonotone(ps: seq<Option<real>>)
    requires Parses(ps)
    ensures forall i :: 0 <= i < |Rounded(WritesAfter(ps, 5.0))| ==> 5 <= Rounded(WritesAfter(ps, 5.0))[i] <= 95
    ensures forall i, j :: 0 <= i < j < |Rounded(WritesAfter(ps, 5.0))| ==>
              Rounded(WritesAfter(ps, 5.0))[i] <= Rounded(WritesAfter(ps, 5.0))[j]
  {
    var w := WritesAfter(ps, 5.0);
    WritesAscend(ps, 5.0);
    forall i | 0 <= i < |w| ensures 5 <= Round(w[i]) <= 95 {
      RoundInBand(w[i]);
    }
    forall i, j | 0 <= i < j < |w| ensures Round(w[i]) <= Round(w[j]) {
      RoundMonotone(w[i], w[j]);
    }
  }
}
