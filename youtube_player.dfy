/** The lunch-time music player: it starts playing at 11:45, stops after
    13:00, picks another video every twelve hours, and shows the time left
    until lunch while it waits.

    The clock is an input (the local hour and minute, and the time in
    milliseconds); the random draw of the next video is a choice the model
    leaves open beyond what the draw loop guarantees. */
module LunchPlayer {

  /** The playlist, as YouTube video ids. */
  const Videos: seq<string> := [
      "H94ntp93SGY", "-ELJY33k7R4", "CJLaUNA5A8o", "2siEux_Oa6c", "AvEbh9DNUQ4",
      "al3QxxwYYFA", "tD2Mb2njhZ4", "FG0_oweynv0", "kyqpSycLASY", "yf5NOyy1SXU",
      "fTb6yJ7AlT8", "nGXiDgK58jc", "_Pt8HLmiLwM", "va1xVzvOlD0", "7MMp9OYPlcE",
      "75yWVZzFd0Y", "EV7vbaeBLkA", "C4AlZEXNbF4", "g7c0W-8rNmw", "XsrzXWLipRQ",
      "tXwvD3f3ruo", "V9Oc3UAlLa8", "g5WC1OMD3NE", "WsfBF4ZnBeY", "cIGd8gm_pYE",
      "-SVVXk2Dr8Q", "5JOaTtcg1tE"
    ]

  /** 11:45 and 13:00 as minutes of the day, and the minutes of a day. */
  const LunchStart := 705
  const LunchEnd := 780
  const DayMinutes := 1440
  /** Twelve hours in milliseconds. */
  const ChangeInterval := 43200000

  /** `hours * 60 + minutes` of a clock reading. */
  predicate MinuteOfDay(m: int)
  {
    0 <= m < DayMinutes
  }

  /** Lunch: from minute 705 up to, not including, 780. */
  predicate IsLunch(m: int)
  {
    LunchStart <= m < LunchEnd
  }

  /** `minutesUntilLunch`: the minutes to the next 11:45, or 0 during
      lunch. */
  function MinutesUntilLunch(m: int): (r: int)
    requires MinuteOfDay(m)
    ensures 0 <= r < DayMinutes
    ensures r == 0 <==> IsLunch(m)
  {
    if m < LunchStart then LunchStart - m
    else if m >= LunchEnd then DayMinutes - m + LunchStart
    else 0
  }

  /** The minute of the day `k` minutes after minute `m`. */
  function Later(m: int, k: int): int
  {
    (m + k) % DayMinutes
  }

  /** Outside lunch the countdown ends exactly at the next 11:45, and no
      minute before it is a lunch minute. */
  lemma CountdownReachesLunch(m: int)
    requires MinuteOfDay(m) && !IsLunch(m)
    ensures Later(m, MinutesUntilLunch(m)) == LunchStart
    ensures forall k :: 0 <= k < MinutesUntilLunch(m) ==> !IsLunch(Later(m, k))
  {
    var r := MinutesUntilLunch(m);
    forall k | 0 <= k < r ensures !IsLunch(Later(m, k)) {
      if m + k >= DayMinutes {
        assert Later(m, k) == m + k - DayMinutes;
      } else {
        assert Later(m, k) == m + k;
      }
    }
    if m >= LunchEnd {
      assert m + r == DayMinutes + LunchStart;
    }
  }

  /** `hoursUntilLunch` and `minsUntilLunch`: `Math.floor(t / 60)` and
      `t % 60`, which agree with Euclidean division for t >= 0. */
  function HoursAndMinutes(t: int): (r: (int, int))
    requires t >= 0
    ensures r.0 * 60 + r.1 == t && 0 <= r.1 < 60 && r.0 >= 0
  {
    (t / 60, t % 60)
  }

  /** The countdown is shown as less than 24 hours. */
  lemma CountdownBelowADay(m: int)
    requires MinuteOfDay(m)
    ensures HoursAndMinutes(MinutesUntilLunch(m)).0 < 24
  {
  }

  class Player {
    var currentVideoIndex: int
    var shouldPlay: bool
    var isLunchTime: bool
    var lastVideoChange: int

    /** The current video is one of the playlist. */
    predicate Valid()
      reads this
    {
      0 <= currentVideoIndex < |Videos|
    }

    /** The initial state: the first video, paused, not lunch, last
        changed at mount time. */
    constructor(now: int)
      ensures Valid() && currentVideoIndex == 0
      ensures !shouldPlay && !isLunchTime && lastVideoChange == now
    {
      currentVideoIndex := 0;
      shouldPlay := false;
      isLunchTime := false;
      lastVideoChange := now;
    }

    /** `checkLunchTime` at minute `hour * 60 + minute` of the day and at
        time `now` in milliseconds. Playing starts only at exactly 11:45
        and only when not already playing; it stops once lunch is over;
        after twelve hours or more another video is picked. */
    method CheckLunchTime(hour: int, minute: int, now: int)
      requires Valid() && 0 <= hour < 24 && 0 <= minute < 60
      modifies this
      ensures Valid()
      ensures isLunchTime == IsLunch(hour * 60 + minute)
      ensures shouldPlay == NextPlaying(old(shouldPlay), hour * 60 + minute)
      ensures now - old(lastVideoChange) >= ChangeInterval ==>
                currentVideoIndex != old(currentVideoIndex) && lastVideoChange == now
      ensures now - old(lastVideoChange) < ChangeInterval ==>
                currentVideoIndex == old(currentVideoIndex) && lastVideoChange == old(lastVideoChange)
    {
      var timeInMinutes := hour * 60 + minute;
      var isLunch := timeInMinutes >= LunchStart && timeInMinutes < LunchEnd;
      isLunchTime := isLunch;
      if isLunch && !shouldPlay && timeInMinutes == LunchStart {
        shouldPlay := true;
      }
      if !isLunch && shouldPlay {
        shouldPlay := false;
      }
      if now - lastVideoChange >= ChangeInterval {
        var previous := currentVideoIndex;
        var newIndex :| 0 <= newIndex < |Videos| && newIndex != previous;
        currentVideoIndex := newIndex;
        lastVideoChange := now;
      }
    }
  }

  /** The playing flag after one check at minute `m`: start at exactly
      11:45 when paused, stop once lunch is over, otherwise keep it. */
  function NextPlaying(playing: bool, m: int): bool
  {
    if IsLunch(m) && !playing && m == LunchStart then true
    else if !IsLunch(m) && playing then false
    else playing
  }

  /** The playing flag after one check per minute, from minute `from` up to
      and including minute `to - 1`. */
  function PlayingAfter(playing: bool, from: int, to: int): bool
    decreases to - from
  {
    if to <= from then playing else NextPlaying(PlayingAfter(playing, from, to - 1), to - 1)
  }

  /** Checked once a minute from midnight, the player plays exactly during
      lunch: from the 11:45 check to the last check before 13:00. */
  lemma {:induction false} PlaysExactlyAtLunch(m: int)
    requires MinuteOfDay(m)
    ensures PlayingAfter(false, 0, m + 1) <==> IsLunch(m)
  {
    if m > 0 {
      PlaysExactlyAtLunch(m - 1);
    }
  }

  /** The player is also checked every second: a second check within the
      same minute changes nothing. */
  lemma CheckedTwiceInAMinute(playing: bool, m: int)
    ensures NextPlaying(NextPlaying(playing, m), m) == NextPlaying(playing, m)
  {
  }

  /** A check that misses 11:45 never starts the player that day: paused
      at 11:44, it stays paused through any later minute of lunch that is
      reached without the 11:45 check. */
  lemma MissedStartStaysPaused(m: int)
    requires IsLunch(m) && m != LunchStart
    ensures !NextPlaying(false, m)
  {
  }
}
