/** The user-metrics chart's caption: the span of the charted dates as
    years and months, months and days, or days.

    Each end of the range is the millisecond instant `new Date(...)` parses
    it to, or None when it does not parse (an undefined end included). */
module MetricsChart {
  import opened Wrappers
  import opened Text

  const DayMs := 86400000
  const YearDays := 365
  const MonthDays := 30
  /** `${NaN}일`: what an unparsed end of the range shows. */
  const NaNDays := "NaN일"

  function Abs(x: int): nat
  {
    if x < 0 then -x else x
  }

  /** `Math.ceil(Math.abs(end - start) / day)`: whole days, a started day
      counting as one. */
  function DayCount(start: int, end: int): (r: nat)
    ensures (r - 1) * DayMs < Abs(end - start) <= r * DayMs || (r == 0 && start == end)
  {
    (Abs(end - start) + DayMs - 1) / DayMs
  }

  /** The day count does not depend on which end comes first. */
  lemma DayCountSymmetric(start: int, end: int)
    ensures DayCount(start, end) == DayCount(end, start)
  {
    assert Abs(end - start) == Abs(start - end);
  }

  /** What the caption shows: whole years, months and days. */
  datatype Parts = Parts(years: nat, months: nat, days: nat)

  /** The split `calculateDuration` makes: from a year on, years of 365
      days and the remaining months of 30 days (the leftover days dropped);
      from 30 days on, months and days; below that, days. */
  function Split(d: nat): (p: Parts)
    ensures p.months <= 12
    ensures p.years > 0 ==> p.days == 0
    ensures p.years == 0 ==> p.months * MonthDays + p.days == d && p.days < MonthDays
    ensures p.years * YearDays + p.months * MonthDays + p.days <= d
              < p.years * YearDays + (p.months + 1) * MonthDays + p.days
  {
    if d >= YearDays then Parts(d / YearDays, d % YearDays / MonthDays, 0)
    else if d >= MonthDays then Parts(0, d / MonthDays, d % MonthDays)
    else Parts(0, 0, d)
  }

  /** The years shown are the whole 365-day years of the span. */
  lemma SplitYears(d: nat)
    ensures Split(d).years * YearDays <= d < (Split(d).years + 1) * YearDays
  {
  }

  /** A number followed by its unit, as `${n}년` writes it. */
  function Part(n: nat, unit: string): string
  {
    NatToString(n) + unit
  }

  /** The optional second part: a space and the part when the number is
      not zero, nothing otherwise. */
  function Extra(n: nat, unit: string): string
  {
    if n > 0 then " " + Part(n, unit) else ""
  }

  /** The caption of a split: the non-zero parts, years before months
      before days, with a bare "0일" for an empty span. */
  function Caption(p: Parts): (r: string)
    ensures r != ""
  {
    if p.years > 0 then Part(p.years, "년") + Extra(p.months, "개월")
    else if p.months > 0 then Part(p.months, "개월") + Extra(p.days, "일")
    else Part(p.days, "일")
  }

  /** The parts a split can produce: years drop the days. */
  predicate Shaped(p: Parts)
  {
    p.years > 0 ==> p.days == 0
  }

  /** The length of the run of digits that starts a text. */
  function DigitRun(s: string): (r: nat)
    ensures r <= |s|
  {
    if s == [] || !IsDigit(s[0]) then 0 else 1 + DigitRun(s[1..])
  }

  /** Digits followed by a text that starts with a non-digit: the run ends
      where the digits do. */
  lemma {:induction false} DigitRunConcat(x: string, w: string)
    requires AllDigits(x) && |w| > 0 && !IsDigit(w[0])
    ensures DigitRun(x + w) == |x|
  {
    if x == [] {
      assert x + w == w;
    } else {
      assert (x + w)[1..] == x[1..] + w;
      DigitRunConcat(x[1..], w);
    }
  }

  /** Two parts that read the same have the same number and go on alike:
      the digits end where the unit begins. */
  lemma PartPrefix(a: nat, u: string, s: string, b: nat, v: string, t: string)
    requires |u| > 0 && |v| > 0 && !IsDigit(u[0]) && !IsDigit(v[0])
    requires Part(a, u) + s == Part(b, v) + t
    ensures a == b && u + s == v + t
  {
    var x, y := NatToString(a), NatToString(b);
    assert Part(a, u) + s == x + (u + s);
    assert Part(b, v) + t == y + (v + t);
    DigitRunConcat(x, u + s);
    DigitRunConcat(y, v + t);
    assert x == (x + (u + s))[..|x|];
    assert y == (y + (v + t))[..|y|];
    NatToStringValue(a);
    NatToStringValue(b);
    assert (x + (u + s))[|x|..] == u + s;
    assert (y + (v + t))[|y|..] == v + t;
  }

  /** Equal second parts of the same unit carry the same number. */
  lemma ExtraSame(m: nat, n: nat, unit: string)
    requires |unit| > 0 && !IsDigit(unit[0])
    requires Extra(m, unit) == Extra(n, unit)
    ensures m == n
  {
    assert Extra(m, unit) != "" <==> m > 0;
    assert Extra(n, unit) != "" <==> n > 0;
    if m > 0 {
      var x, y := Extra(m, unit), Extra(n, unit);
      assert x[1..] == Part(m, unit) + "";
      assert y[1..] == Part(n, unit) + "";
      PartPrefix(m, unit, "", n, unit, "");
    }
  }

  /** The caption is unambiguous: two splits with the same caption are the
      same split, so the caption shows every part a split keeps. */
  lemma CaptionUnambiguous(p: Parts, q: Parts)
    requires Shaped(p) && Shaped(q) && Caption(p) == Caption(q)
    ensures p == q
  {
    var a := if p.years > 0 then p.years else if p.months > 0 then p.months else p.days;
    var u := if p.years > 0 then "년" else if p.months > 0 then "개월" else "일";
    var s := if p.years > 0 then Extra(p.months, "개월") else if p.months > 0 then Extra(p.days, "일") else "";
    var b := if q.years > 0 then q.years else if q.months > 0 then q.months else q.days;
    var v := if q.years > 0 then "년" else if q.months > 0 then "개월" else "일";
    var t := if q.years > 0 then Extra(q.months, "개월") else if q.months > 0 then Extra(q.days, "일") else "";
    assert Caption(p) == Part(a, u) + s;
    assert Caption(q) == Part(b, v) + t;
    PartPrefix(a, u, s, b, v, t);
    assert u[0] == v[0] by {
      assert (u + s)[0] == u[0];
      assert (v + t)[0] == v[0];
    }
    assert u == v;
    assert s == t by {
      assert s == (u + s)[|u|..];
      assert t == (v + t)[|v|..];
    }
    if p.years > 0 {
      ExtraSame(p.months, q.months, "개월");
    } else if p.months > 0 {
      ExtraSame(p.days, q.days, "일");
    }
  }

  /** The caption of a span shows its split: spans whose captions agree
      split into the same years, months and days. */
  lemma SameCaptionSameSplit(d: nat, e: nat)
    requires Caption(Split(d)) == Caption(Split(e))
    ensures Split(d) == Split(e)
  {
    CaptionUnambiguous(Split(d), Split(e));
  }

  /** `calculateDuration(start, end)`. */
  function CalculateDuration(start: Option<int>, end: Option<int>): (r: string)
    ensures start.None? || end.None? ==> r == NaNDays
    ensures start.Some? && end.Some? ==> r == Caption(Split(DayCount(start.value, end.value)))
    ensures start.Some? && end.Some? ==> r != NaNDays
  {
    if start.None? || end.None? then NaNDays
    else
      var r := Caption(Split(DayCount(start.value, end.value)));
      CaptionNotNaN(Split(DayCount(start.value, end.value)));
      r
  }

  /** A caption always starts with a digit, so it is never the NaN text. */
  lemma CaptionNotNaN(p: Parts)
    ensures Caption(p)[0] != 'N'
    ensures Caption(p) != NaNDays
  {
    var n := if p.years > 0 then p.years else if p.months > 0 then p.months else p.days;
    var s := NatToString(n);
    assert Caption(p)[0] == s[0];
  }

  /** Swapping the two ends gives the same caption. */
  lemma DurationSymmetric(start: Option<int>, end: Option<int>)
    ensures CalculateDuration(start, end) == CalculateDuration(end, start)
  {
    if start.Some? && end.Some? {
      DayCountSymmetric(start.value, end.value);
    }
  }
}
