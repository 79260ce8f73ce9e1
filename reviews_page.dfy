/** The character-reviews screen: star ratings drawn as text, review times
    shown in Korean time as "MM/DD HH:mm", and the first eight reviews of
    the feed laid out on the grid.

    A review time is the millisecond instant `new Date(createdAt)` parses
    the stored text to, or None when the text is not a date (the parser
    itself is not part of this model). */
module ReviewsPage {
  import opened Wrappers
  import opened Seqs
  import opened Text
  import opened Calendar

  const Stars := 5
  const Filled := '★'
  const Empty := '☆'
  /** `String.prototype.repeat` with a negative count throws. */
  const InvalidCount := "RangeError: Invalid count value"

  const HourMs := 3600000
  const DayMs := 86400000
  /** Korea Standard Time is UTC+9. */
  const KstOffsetMs := 9 * HourMs
  const GridSize := 8
  /** `String(NaN)`, which `padStart` leaves as it is. */
  const NaNText := "NaN"

  /** `renderStars(count)`: `count` filled stars then `5 - count` empty
      ones; a count below 0 or above 5 makes one of the repeats throw. */
  function RenderStars(count: int): (r: Result<string>)
    ensures r.Ok? <==> 0 <= count <= Stars
    ensures r.Err? ==> r.error == InvalidCount
    ensures r.Ok? ==> |r.value| == Stars
    ensures r.Ok? ==> forall i :: 0 <= i < Stars ==> r.value[i] == (if i < count then Filled else Empty)
  {
    if count < 0 || Stars - count < 0 then Err(InvalidCount)
    else Ok(Repeat(Filled, count) + Repeat(Empty, Stars - count))
  }

  /** The number of filled stars reads back as the rating. */
  lemma StarsReadBack(count: int)
    requires 0 <= count <= Stars
    ensures RenderStars(count).Ok?
    ensures multiset(RenderStars(count).value)[Filled] == count
  {
    var r := RenderStars(count).value;
    assert r == Repeat(Filled, count) + Repeat(Empty, Stars - count);
    RepeatCount(Filled, Filled, count);
    RepeatCount(Empty, Filled, Stars - count);
  }

  /** How often `c` occurs in `n` copies of `d`. */
  lemma {:induction false} RepeatCount(d: char, c: char, n: nat)
    ensures multiset(Repeat(d, n))[c] == if c == d then n else 0
  {
    if n > 0 {
      RepeatCount(d, c, n - 1);
      assert Repeat(d, n) == Repeat(d, n - 1) + [d];
      assert multiset(Repeat(d, n)) == multiset(Repeat(d, n - 1)) + multiset{d};
    } else {
      assert Repeat(d, n) == [];
    }
  }

  /** The fields `formatDate` reads, in UTC, from the instant shifted by
      nine hours. */
  datatype Stamp = Stamp(month: int, day: int, hour: int, minute: int)

  /** Month, day, hour and minute of instant `t` in Korea: `getUTCMonth() +
      1`, `getUTCDate()`, `getUTCHours()` and `getUTCMinutes()` of `t + 9 h`,
      counted with floor division as `Date` does before 1970. */
  function KstStamp(t: int): (s: Stamp)
    ensures 1 <= s.month <= 12 && 1 <= s.day <= 31
    ensures 0 <= s.hour < 24 && 0 <= s.minute < 60
  {
    var k := t + KstOffsetMs;
    var date := FromEpochDays(k / DayMs);
    var inDay := k % DayMs;
    Stamp(date.month, date.day, inDay / HourMs, inDay % HourMs / 60000)
  }

  /** A positive multiple of d is at least d. */
  lemma {:induction false} MulAtLeast(x: int, d: int)
    requires x >= 1 && d > 0
    ensures x * d >= d
  {
    if x > 1 {
      MulAtLeast(x - 1, d);
      assert x * d == (x - 1) * d + d;
    }
  }

  /** Quotient and remainder are the only ones of their kind. */
  lemma DivModUnique(a: int, d: int, q: int, r: int)
    requires d > 0 && 0 <= r < d && a == q * d + r
    ensures a / d == q && a % d == r
  {
    var e := a / d - q;
    assert e * d == r - a % d;
    if e >= 1 {
      MulAtLeast(e, d);
    } else if e <= -1 {
      MulAtLeast(-e, d);
    }
  }

  /** The Korean hour is the UTC hour moved forward by nine, modulo a day. */
  lemma KstHour(t: int)
    ensures KstStamp(t).hour == (t / HourMs + 9) % 24
    ensures KstStamp(t).minute == t / 60000 % 60
  {
    var k := t + KstOffsetMs;
    var q, r := t / HourMs, t % HourMs;
    DivModUnique(k, HourMs, q + 9, r);
    var big, hour := (q + 9) / 24, (q + 9) % 24;
    assert k == big * DayMs + (hour * HourMs + r);
    DivModUnique(k, DayMs, big, hour * HourMs + r);
    DivModUnique(hour * HourMs + r, HourMs, hour, r);
    var m, sec := r / 60000, r % 60000;
    assert t == (q * 60 + m) * 60000 + sec;
    DivModUnique(t, 60000, q * 60 + m, sec);
    DivModUnique(q * 60 + m, 60, q, m);
  }

  /** "a/b c:d" for four two-character fields. */
  function Layout(a: string, b: string, c: string, d: string): string
  {
    a + "/" + b + " " + c + ":" + d
  }

  /** Where the four fields and the three separators sit in the layout. */
  lemma LayoutFields(a: string, b: string, c: string, d: string)
    requires |a| == 2 && |b| == 2 && |c| == 2 && |d| == 2
    ensures var r := Layout(a, b, c, d);
      && |r| == 11 && r[2] == '/' && r[5] == ' ' && r[8] == ':'
      && r[0..2] == a && r[3..5] == b && r[6..8] == c && r[9..11] == d
  {
  }

  /** `formatDate`: "MM/DD HH:mm", each field two digits; an instant that
      did not parse shows "NaN" in every field. */
  function FormatDate(t: Option<int>): (r: string)
    ensures t.None? ==> r == Layout(NaNText, NaNText, NaNText, NaNText)
    ensures t.Some? ==>
              && |r| == 11 && r[2] == '/' && r[5] == ' ' && r[8] == ':'
              && AllDigits(r[0..2]) && AllDigits(r[3..5]) && AllDigits(r[6..8]) && AllDigits(r[9..11])
              && DigitsValue(r[0..2]) == KstStamp(t.value).month
              && DigitsValue(r[3..5]) == KstStamp(t.value).day
              && DigitsValue(r[6..8]) == KstStamp(t.value).hour
              && DigitsValue(r[9..11]) == KstStamp(t.value).minute
  {
    match t
    case None => Layout(NaNText, NaNText, NaNText, NaNText)
    case Some(ms) =>
      var s := KstStamp(ms);
      var month := PadNat(s.month, 2);
      var day := PadNat(s.day, 2);
      var hours := PadNat(s.hour, 2);
      var minutes := PadNat(s.minute, 2);
      LayoutFields(month, day, hours, minutes);
      Layout(month, day, hours, minutes)
  }

  /** The reviews laid out: `reviews.slice(0, 8)`, the first eight in the
      order the feed gave them. */
  function Grid<R>(reviews: seq<R>): (r: seq<R>)
    ensures |r| == if |reviews| < GridSize then |reviews| else GridSize
    ensures forall i :: 0 <= i < |r| ==> r[i] == reviews[i]
  {
    Take(reviews, GridSize)
  }

  /** Laying out again changes nothing. */
  lemma GridIdempotent<R>(reviews: seq<R>)
    ensures Grid(Grid(reviews)) == Grid(reviews)
  {
  }
}
