/** Proleptic Gregorian calendar dates, the way JavaScript's `Date` counts
    them: `setDate(getDate() + k)` moves by whole days across month and year
    ends, `setFullYear(y - 1)` lets 29 February overflow into March, and
    `toISOString().split('T')[0]` prints the extended form YYYY-MM-DD of
    section 4.1.2.2 of ISO 8601:2004. */
module Calendar {
  import opened Wrappers
  import opened Text

  datatype Date = Date(year: int, month: int, day: int)

  predicate IsLeapYear(y: int)
  {
    y % 4 == 0 && (y % 100 != 0 || y % 400 == 0)
  }

  function DaysInMonth(y: int, m: int): (r: int)
    requires 1 <= m <= 12
    ensures 28 <= r <= 31
    ensures r == 29 <==> m == 2 && IsLeapYear(y)
  {
    if m == 2 then (if IsLeapYear(y) then 29 else 28)
    else if m == 4 || m == 6 || m == 9 || m == 11 then 30
    else 31
  }

  /** A day that exists in the calendar. */
  predicate Valid(d: Date)
  {
    1 <= d.month <= 12 && 1 <= d.day <= DaysInMonth(d.year, d.month)
  }

  function NextDay(d: Date): (r: Date)
    requires Valid(d)
    ensures Valid(r)
  {
    if d.day < DaysInMonth(d.year, d.month) then d.(day := d.day + 1)
    else if d.month < 12 then Date(d.year, d.month + 1, 1)
    else Date(d.year + 1, 1, 1)
  }

  function PrevDay(d: Date): (r: Date)
    requires Valid(d)
    ensures Valid(r)
  {
    if d.day > 1 then d.(day := d.day - 1)
    else if d.month > 1 then Date(d.year, d.month - 1, DaysInMonth(d.year, d.month - 1))
    else Date(d.year - 1, 12, 31)
  }

  /** Stepping a day forth and back, or back and forth, returns to the start. */
  lemma PrevNext(d: Date)
    requires Valid(d)
    ensures PrevDay(NextDay(d)) == d
    ensures NextDay(PrevDay(d)) == d
  {
  }

  /** `date.setDate(date.getDate() + k)`: the day k days after d (before it
      when k is negative). */
  function AddDays(d: Date, k: int): (r: Date)
    requires Valid(d)
    ensures Valid(r)
    decreases if k < 0 then -k else k
  {
    if k == 0 then d
    else if k > 0 then AddDays(NextDay(d), k - 1)
    else AddDays(PrevDay(d), k + 1)
  }

  lemma StepForward(d: Date, k: int)
    requires Valid(d)
    ensures AddDays(NextDay(d), k) == AddDays(d, k + 1)
  {
    if k < 0 {
      PrevNext(d);
    }
  }

  lemma StepBack(d: Date, k: int)
    requires Valid(d)
    ensures AddDays(PrevDay(d), k) == AddDays(d, k - 1)
  {
    if k > 0 {
      PrevNext(d);
    }
  }

  /** Moving by a days and then by b days is moving by a + b days. */
  lemma {:induction false} AddDaysAdd(d: Date, a: int, b: int)
    requires Valid(d)
    ensures AddDays(AddDays(d, a), b) == AddDays(d, a + b)
    decreases if a < 0 then -a else a
  {
    if a > 0 {
      AddDaysAdd(NextDay(d), a - 1, b);
      StepForward(d, a - 1 + b);
    } else if a < 0 {
      AddDaysAdd(PrevDay(d), a + 1, b);
      StepBack(d, a + 1 + b);
    }
  }

  /** Going k days back undoes going k days forth. */
  lemma AddDaysInverse(d: Date, k: int)
    requires Valid(d)
    ensures AddDays(AddDays(d, k), -k) == d
  {
    AddDaysAdd(d, k, -k);
  }

  /** `date.setFullYear(date.getFullYear() - 1)`: the same month and day a
      year earlier. Only 29 February can be missing from the earlier year,
      and `Date` lets it run on into 1 March. */
  function YearBack(d: Date): (r: Date)
    requires Valid(d)
    ensures Valid(r)
    ensures d.day <= DaysInMonth(d.year - 1, d.month) ==> r == Date(d.year - 1, d.month, d.day)
    ensures d.month == 2 && d.day == 29 ==> r == Date(d.year - 1, 3, 1)
  {
    if d.day <= DaysInMonth(d.year - 1, d.month) then Date(d.year - 1, d.month, d.day)
    else Date(d.year - 1, 3, 1)
  }

  /** The year as `toISOString` prints it: four digits for years 0 to 9999,
      otherwise a sign and six digits. */
  function YearText(y: int): (r: string)
    ensures 0 <= y <= 9999 ==> |r| == 4 && AllDigits(r) && DigitsValue(r) == y
  {
    if 0 <= y <= 9999 then PadNat(y, 4)
    else (if y < 0 then "-" else "+") + PadNat(if y < 0 then -y else y, 6)
  }

  /** `date.toISOString().split('T')[0]`: the extended form YYYY-MM-DD. */
  function IsoText(d: Date): (r: string)
    requires Valid(d)
    ensures r != ""
    ensures 0 <= d.year <= 9999 ==> |r| == 10 && r[4] == '-' && r[7] == '-'
  {
    var y := YearText(d.year);
    var m := PadNat(d.month, 2);
    var dd := PadNat(d.day, 2);
    assert 0 <= d.year <= 9999 ==> |y| == 4 && |m| == 2 && |dd| == 2 by {
      assert |NatToString(d.month)| <= 2 && |NatToString(d.day)| <= 2;
    }
    assert 0 <= d.year <= 9999 ==> |y + "-" + m + "-" + dd| == 10 && (y + "-" + m + "-" + dd)[4] == '-'
                                   && (y + "-" + m + "-" + dd)[7] == '-' by {
      if 0 <= d.year <= 9999 {
        Fields(y, m, dd);
      }
    }
    y + "-" + m + "-" + dd
  }

  /** `isoText.replace(/-/g, '')`: the basic form YYYYMMDD that the
      analytics provider takes. */
  function BasicText(d: Date): (r: string)
    requires Valid(d)
    ensures 0 <= d.year <= 9999 ==>
              r == YearText(d.year) + PadNat(d.month, 2) + PadNat(d.day, 2) && |r| == 8
  {
    var y := YearText(d.year);
    var m := PadNat(d.month, 2);
    var dd := PadNat(d.day, 2);
    var r := RemoveChar(IsoText(d), '-');
    assert 0 <= d.year <= 9999 ==> r == y + m + dd by {
      if 0 <= d.year <= 9999 {
        DropDashes(y, m, dd);
      }
    }
    r
  }

  lemma DropDashes(y: string, m: string, d: string)
    requires AllDigits(y) && AllDigits(m) && AllDigits(d)
    ensures RemoveChar(y + "-" + m + "-" + d, '-') == y + m + d
  {
    DropDash(y + "-" + m, d);
    DropDash(y, m);
    NoDash(y);
    NoDash(m);
    NoDash(d);
  }

  lemma DropDash(a: string, b: string)
    ensures RemoveChar(a + "-" + b, '-') == RemoveChar(a, '-') + RemoveChar(b, '-')
  {
    RemoveCharAppend(a + "-", b, '-');
    RemoveCharAppend(a, "-", '-');
    assert RemoveChar("-", '-') == [];
  }

  lemma NoDash(s: string)
    requires AllDigits(s)
    ensures RemoveChar(s, '-') == s
  {
    assert '-' !in s by {
      assert forall i :: 0 <= i < |s| ==> IsDigit(s[i]);
    }
    RemoveCharAbsent(s, '-');
  }

  /** `new Date(text)` for a date-only string, read back through its
      calendar fields: defined for YYYY-MM-DD naming a day that exists. */
  function ParseIso(s: string): (r: Option<Date>)
    ensures r.Some? ==> Valid(r.value)
  {
    if |s| == 10 && s[4] == '-' && s[7] == '-'
       && AllDigits(s[..4]) && AllDigits(s[5..7]) && AllDigits(s[8..])
    then
      var d := Date(DigitsValue(s[..4]), DigitsValue(s[5..7]), DigitsValue(s[8..]));
      if Valid(d) then Some(d) else None
    else None
  }

  /** Printing a date and parsing the text gives the date back. */
  lemma ParseIsoText(d: Date)
    requires Valid(d) && 0 <= d.year <= 9999
    ensures ParseIso(IsoText(d)) == Some(d)
  {
    Fields(YearText(d.year), PadNat(d.month, 2), PadNat(d.day, 2));
  }

  lemma Fields(y: string, m: string, d: string)
    requires |y| == 4 && |m| == 2 && |d| == 2
    ensures var s := y + "-" + m + "-" + d;
      |s| == 10 && s[4] == '-' && s[7] == '-' && s[..4] == y && s[5..7] == m && s[8..] == d
  {
  }

  /** 1 January 1970, day 0 of the millisecond clock. */
  const Epoch := Date(1970, 1, 1)

  /** The calendar day of day number n of the millisecond clock. */
  function FromEpochDays(n: int): (r: Date)
    ensures Valid(r)
  {
    AddDays(Epoch, n)
  }
}
