/**
 * The "HH:MM" helpers of utils/dateFormatters.ts: formatting a clock time,
 * the minute difference of two clock times, the text of a duration, and
 * whether an exam is running at a given instant.
 *
 * Number(...) on a part of a clock time is modelled on plain digit strings:
 * the empty string is 0, a string of decimal digits is its value, and
 * anything else (including a missing part) is NaN, written None.
 */
module DateFormatters {
  import opened Common

  const MsPerMinute := 60000
  const MsPerDay := 86400000

  predicate AllDigits(s: string)
  {
    forall i :: 0 <= i < |s| ==> '0' <= s[i] <= '9'
  }

  /**
   * Number(s) for the texts a clock time is made of; None stands for NaN.
   * An empty part reads as 0, and a text still holding a ':' is never a number.
   */
  function JsNumber(s: string): (r: Option<nat>)
    ensures s == "" ==> r == Some(0)
    ensures ':' in s ==> r.None?
  {
    if AllDigits(s) then Some(DigitsValue(s)) else None
  }

  /** Number(`${n}`) == n: the decimal text of a natural number reads back as it. */
  lemma JsNumberReadsDecimal(n: nat)
    ensures JsNumber(NatToString(n)) == Some(n)
  {
    NatToStringValue(n);
  }

  /** A leading zero does not change the number: "09" reads as 9. */
  lemma {:induction false} JsNumberLeadingZero(s: string)
    ensures JsNumber("0" + s) == JsNumber(s)
  {
    if AllDigits(s) {
      LeadingZeroValue(s);
    } else {
      var i :| 0 <= i < |s| && !('0' <= s[i] <= '9');
      assert ("0" + s)[i + 1] == s[i];
    }
  }

  lemma {:induction false} LeadingZeroValue(s: string)
    requires AllDigits(s)
    ensures AllDigits("0" + s) && DigitsValue("0" + s) == DigitsValue(s)
  {
    var t := "0" + s;
    assert AllDigits(t) by {
      forall i | 0 <= i < |t| ensures '0' <= t[i] <= '9' {
        if i > 0 { assert t[i] == s[i - 1]; }
      }
    }
    if s != [] {
      var init := s[..|s| - 1];
      assert t[..|t| - 1] == "0" + init;
      assert AllDigits(init) by {
        forall i | 0 <= i < |init| ensures '0' <= init[i] <= '9' {
          assert init[i] == s[i];
        }
      }
      LeadingZeroValue(init);
    }
  }

  // ---------------------------------------------------------------------
  // formatTime

  /** `${hours}h${minutes}` after destructuring split(':'); a missing minutes part prints as "undefined". */
  function FormatTime(t: string): (r: string)
    ensures ':' !in t ==> r == t + "hundefined"
  {
    var parts := Split(t, ':');
    assert ':' !in t ==> parts == [t] by {
      if ':' !in t { SplitNoSep(t, ':'); }
    }
    parts[0] + "h" + (if |parts| >= 2 then parts[1] else "undefined")
  }

  /** "HH:MM" becomes "HHhMM", both parts copied verbatim; anything after a second ':' is dropped. */
  lemma FormatTimeOfClock(hs: string, ms: string, rest: string)
    requires ':' !in hs && ':' !in ms
    ensures FormatTime(hs + ":" + ms) == hs + "h" + ms
    ensures FormatTime(hs + ":" + ms + ":" + rest) == hs + "h" + ms
  {
    SplitAtSep(hs, ms, ':');
    SplitNoSep(hs, ':');
    SplitNoSep(ms, ':');
    assert hs + ":" + ms == hs + [':'] + ms;
    assert hs + ":" + ms + ":" + rest == hs + [':'] + (ms + [':'] + rest);
    SplitAtSep(hs, ms + [':'] + rest, ':');
    SplitAtSep(ms, rest, ':');
  }

  // ---------------------------------------------------------------------
  // calculateDuration

  /** The hours and minutes parts of a clock time, after split(':').map(Number). */
  function ClockParts(t: string): (r: (Option<nat>, Option<nat>))
  {
    var parts := Split(t, ':');
    (JsNumber(parts[0]), if |parts| >= 2 then JsNumber(parts[1]) else None)
  }

  /** hours * 60 + minutes, NaN when either part is. */
  function MinutesOfDay(t: string): (r: Option<int>)
    ensures r.Some? <==> ClockParts(t).0.Some? && ClockParts(t).1.Some?
  {
    var (h, m) := ClockParts(t);
    if h.Some? && m.Some? then Some(h.value * 60 + m.value) else None
  }

  /** End minus start in minutes, with no wrap at midnight; NaN when either time is malformed. */
  function CalculateDuration(startTime: string, endTime: string): (r: Option<int>)
    ensures r.Some? <==> MinutesOfDay(startTime).Some? && MinutesOfDay(endTime).Some?
    ensures r.Some? ==> r.value + MinutesOfDay(startTime).value == MinutesOfDay(endTime).value
  {
    var s := MinutesOfDay(startTime);
    var e := MinutesOfDay(endTime);
    if s.Some? && e.Some? then Some(e.value - s.value) else None
  }

  /** The clock time text hs:ms. */
  function Clock(hs: string, ms: string): string
  {
    hs + ":" + ms
  }

  /** Clock times made of digits: the difference of their minute counts, negative when end precedes start. */
  lemma {:induction false} DurationOfClockTimes(sh: string, sm: string, eh: string, em: string)
    requires AllDigits(sh) && AllDigits(sm) && AllDigits(eh) && AllDigits(em)
    ensures var s := DigitsValue(sh) * 60 + DigitsValue(sm);
      var e := DigitsValue(eh) * 60 + DigitsValue(em);
      CalculateDuration(Clock(sh, sm), Clock(eh, em)) == Some(e - s)
  {
    ClockOfDigits(sh, sm);
    ClockOfDigits(eh, em);
  }

  lemma ClockOfDigits(hs: string, ms: string)
    requires AllDigits(hs) && AllDigits(ms)
    ensures MinutesOfDay(Clock(hs, ms)) == Some(DigitsValue(hs) * 60 + DigitsValue(ms))
  {
    assert ':' !in hs && ':' !in ms;
    assert Clock(hs, ms) == hs + [':'] + ms;
    SplitAtSep(hs, ms, ':');
    SplitNoSep(hs, ':');
    SplitNoSep(ms, ':');
  }

  /** A time minus itself is zero, unless it is malformed. */
  lemma DurationSelf(t: string)
    ensures CalculateDuration(t, t) == if MinutesOfDay(t).Some? then Some(0) else None
  {
  }

  /** Swapping the two times negates the difference. */
  lemma DurationSwap(s: string, e: string)
    ensures CalculateDuration(e, s).Some? <==> CalculateDuration(s, e).Some?
    ensures CalculateDuration(s, e).Some? ==> CalculateDuration(e, s).value == -CalculateDuration(s, e).value
  {
  }

  // ---------------------------------------------------------------------
  // formatDuration

  /**
   * The text of a duration: "{m} min" under an hour, "{h}h" or "{h}h {m}min"
   * otherwise. A negative duration prints only its floor hour count: the
   * remainder of `%` is then not positive, so its minutes are dropped.
   */
  function FormatDuration(minutes: int): (r: string)
    ensures 0 <= minutes < 60 ==> r == NatToString(minutes) + " min"
    ensures minutes < 0 ==> r == "-" + NatToString(-(minutes / 60)) + "h"
  {
    var hours := minutes / 60;
    var mins := JsRem(minutes, 60);
    if hours == 0 then IntToString(mins) + " min"
    else IntToString(hours) + "h" + (if mins > 0 then " " + IntToString(mins) + "min" else "")
  }

  /** Under an hour the minutes are printed as they are. */
  lemma FormatDurationUnderAnHour(m: int)
    requires 0 <= m < 60
    ensures FormatDuration(m) == NatToString(m) + " min"
  {
  }

  /**
   * From an hour up, the text shows h hours and r minutes with h * 60 + r == m
   * and 0 <= r < 60, the minutes left out when r is 0.
   */
  lemma FormatDurationHours(m: int, h: int, r: int)
    requires m >= 60 && h * 60 + r == m && 0 <= r < 60
    ensures r == 0 ==> FormatDuration(m) == NatToString(h) + "h"
    ensures r > 0 ==> FormatDuration(m) == NatToString(h) + "h " + NatToString(r) + "min"
  {
    HoursParts(m, h, r);
  }

  /** The quotient and remainder by 60 of h * 60 + r, and their texts. */
  lemma HoursParts(m: int, h: int, r: int)
    requires m >= 60 && h * 60 + r == m && 0 <= r < 60
    ensures m / 60 == h >= 1 && JsRem(m, 60) == r
    ensures IntToString(h) == NatToString(h) && IntToString(r) == NatToString(r)
  {
    assert m / 60 == h && m % 60 == r;
  }

  /** Reading the two numbers back from the text of m >= 60 gives m again. */
  lemma FormatDurationReadBack(m: int)
    requires m >= 60
    ensures DigitsValue(NatToString(m / 60)) * 60 + (if m % 60 > 0 then DigitsValue(NatToString(m % 60)) else 0) == m
  {
    NatToStringValue(m / 60);
    NatToStringValue(m % 60);
  }

  // ---------------------------------------------------------------------
  // isExamInProgress

  /**
   * The exam is on day examDay (local days since the epoch, the exam date
   * being that day's midnight); now is local milliseconds since the epoch.
   * setHours(h, m, 0) on the exam date is examDay's midnight plus h hours and
   * m minutes (hours past 23 run into the next day); a NaN part makes an
   * invalid date, which no comparison accepts.
   */
  function IsExamInProgress(examDay: int, startTime: string, endTime: string, now: int): (r: bool)
    ensures r ==> now / MsPerDay == examDay
  {
    if examDay != now / MsPerDay then false
    else
      var s := MinutesOfDay(startTime);
      var e := MinutesOfDay(endTime);
      if s.None? || e.None? then false
      else
        var examStart := examDay * MsPerDay + s.value * MsPerMinute;
        var examEnd := examDay * MsPerDay + e.value * MsPerMinute;
        examStart <= now && now <= examEnd
  }

  /** On the exam's day, it is running exactly from its start to its end, both included. */
  lemma InProgressWindow(examDay: int, startTime: string, endTime: string, now: int)
    requires now / MsPerDay == examDay
    requires MinutesOfDay(startTime).Some? && MinutesOfDay(endTime).Some?
    ensures IsExamInProgress(examDay, startTime, endTime, now) <==>
      examDay * MsPerDay + MinutesOfDay(startTime).value * MsPerMinute <= now
      <= examDay * MsPerDay + MinutesOfDay(endTime).value * MsPerMinute
  {
  }

  /** An exam whose end precedes its start (a negative duration) is never running. */
  lemma NegativeDurationNeverInProgress(examDay: int, startTime: string, endTime: string, now: int)
    requires CalculateDuration(startTime, endTime).Some? && CalculateDuration(startTime, endTime).value < 0
    ensures !IsExamInProgress(examDay, startTime, endTime, now)
  {
  }
}
