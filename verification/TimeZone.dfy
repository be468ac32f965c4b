/** src/utils/TimeZone.cpp: broken-down UTC time, the search in a table of
    time-zone transitions, and the conversion to local time and back.
    `gmtime_r` and `timegm` are stood in for by `toUtcTime` and `fromUtcTime`. */
module TimeZone {
  import opened CInts
  import opened Calendar

  const SECONDS_PER_DAY: int := 24 * 60 * 60

  datatype Zone = NoZone | Gmt | Abbreviation(index: int)

  datatype Tm = Tm(sec: int, min: int, hour: int, mday: int, mon: int, year: int,
                   wday: int, yday: int, isDst: bool, gmtOffset: int, zone: Zone)

  // ---------- Broken-down UTC time ----------

  function DayNumberAt(t: int): int { t / SECONDS_PER_DAY + JULIAN_DAY_OF_1970_01_01 }

  /** The times whose day the calendar conversions handle without overflow. */
  predicate InCalendarRange(t: int) {
    FIRST_DAY_NUMBER <= DayNumberAt(t) <= LAST_DAY_NUMBER
  }

  /** UTC broken-down time by floor division: the day `t` falls on and the second of that day. */
  function UtcTime(t: int, yday: bool): Tm {
    var date := ToYearMonthDay(DayNumberAt(t));
    var s := t % SECONDS_PER_DAY;
    Tm(s % 60, s / 60 % 60, s / 3600, date.day, date.month - 1, date.year - 1900,
       WeekDay(DayNumberAt(t)),
       if yday then DayNumberAt(t) - JulianDayNumber(date.year, 1, 1) else 0,
       false, 0, Gmt)
  }

  method FillHMS(seconds: nat, utc: Tm) returns (r: Tm)
    ensures r == utc.(sec := seconds % 60, min := seconds / 60 % 60, hour := seconds / 3600)
  {
    r := utc.(sec := seconds % 60);
    var minutes := seconds / 60;
    r := r.(min := minutes % 60);
    r := r.(hour := minutes / 60);
    assert minutes / 60 == seconds / 3600;
  }

  /** The source divides with truncation and steps back a day when the remainder is
      negative: that is floor division, whenever the day count fits an `int`. */
  method ToUtcTime(secondsSinceEpoch: int, yday: bool) returns (utc: Tm)
    ensures InInt32(secondsSinceEpoch / SECONDS_PER_DAY) ==> utc == UtcTime(secondsSinceEpoch, yday)
    ensures InInt32(secondsSinceEpoch / SECONDS_PER_DAY) && DayNumberAt(secondsSinceEpoch) >= -1
            ==> utc.wday == (secondsSinceEpoch / 86400 + 4) % 7
  {
    WeekDayOf(secondsSinceEpoch, yday);
    hide ToYearMonthDay, JulianDayNumber, WeekDay;
    utc := Tm(0, 0, 0, 0, 0, 0, 0, 0, false, 0, Gmt);
    var seconds := ToInt32(Rem(secondsSinceEpoch, SECONDS_PER_DAY));
    var days := ToInt32(Quot(secondsSinceEpoch, SECONDS_PER_DAY));
    if seconds < 0 {
      seconds := seconds + SECONDS_PER_DAY;
      days := days - 1;
    }
    FloorByTruncation(secondsSinceEpoch, seconds, days);
    utc := FillHMS(seconds, utc);
    var date := days + JULIAN_DAY_OF_1970_01_01;
    var ymd := ToYearMonthDay(date);
    utc := utc.(year := ymd.year - 1900, mon := ymd.month - 1, mday := ymd.day, wday := WeekDay(date));
    if yday {
      utc := utc.(yday := date - JulianDayNumber(ymd.year, 1, 1));
    }
  }

  /** The weekday of a time: 1970-01-01 was a Thursday, and a week has seven days. */
  lemma WeekDayOf(t: int, yday: bool)
    ensures DayNumberAt(t) >= -1 ==> UtcTime(t, yday).wday == (t / 86400 + 4) % 7
  {
    hide ToYearMonthDay, JulianDayNumber;
    var d := t / SECONDS_PER_DAY;
    assert 2440588 + d + 1 == 7 * 348655 + (d + 4);
  }

  lemma FloorByTruncation(t: int, seconds: int, days: int)
    requires var s, d := ToInt32(Rem(t, SECONDS_PER_DAY)), ToInt32(Quot(t, SECONDS_PER_DAY));
             seconds == (if s < 0 then s + SECONDS_PER_DAY else s) && days == (if s < 0 then d - 1 else d)
    ensures seconds == t % SECONDS_PER_DAY
    ensures InInt32(t / SECONDS_PER_DAY) ==> days == t / SECONDS_PER_DAY
  {
    if t < 0 {
      assert -t == SECONDS_PER_DAY * (-t / SECONDS_PER_DAY) + -t % SECONDS_PER_DAY;
      assert InInt32(t / SECONDS_PER_DAY) ==> InInt32(Quot(t, SECONDS_PER_DAY));
    }
  }

  function FromUtcFields(year: int, month: int, day: int, hour: int, minute: int, seconds: int): int {
    var secondsInDay := hour * 3600 + minute * 60 + seconds;
    var days := JulianDayNumber(year, month, day) - JULIAN_DAY_OF_1970_01_01;
    days * SECONDS_PER_DAY + secondsInDay
  }

  function FromUtcTime(utc: Tm): int {
    FromUtcFields(utc.year + 1900, utc.mon + 1, utc.mday, utc.hour, utc.min, utc.sec)
  }

  predicate ValidClock(tm: Tm) {
    0 <= tm.sec < 60 && 0 <= tm.min < 60 && 0 <= tm.hour < 24
  }

  function DateOf(tm: Tm): YearMonthDay { YearMonthDay(tm.year + 1900, tm.mon + 1, tm.mday) }

  /** seconds -> fields -> seconds, negative times included; every field is in range. */
  lemma UtcRoundTrip(t: int, yday: bool)
    requires InCalendarRange(t)
    ensures FromUtcTime(UtcTime(t, yday)) == t
    ensures ValidClock(UtcTime(t, yday)) && InCalendar(DateOf(UtcTime(t, yday)))
  {
    hide ToYearMonthDay, JulianDayNumber, WeekDay, InCalendar;
    DayNumberRoundTrip(DayNumberAt(t));
    ClockOfSecond(t % SECONDS_PER_DAY);
    assert DateOf(UtcTime(t, yday)) == ToYearMonthDay(DayNumberAt(t));
  }

  lemma ClockOfSecond(s: nat)
    requires s < SECONDS_PER_DAY
    ensures s / 3600 < 24 && s / 3600 * 3600 + s / 60 % 60 * 60 + s % 60 == s
  {
  }

  lemma SecondOfClock(hour: nat, min: nat, sec: nat)
    requires hour < 24 && min < 60 && sec < 60
    ensures var s := hour * 3600 + min * 60 + sec;
            s < SECONDS_PER_DAY && s % 60 == sec && s / 60 % 60 == min && s / 3600 == hour
  {
    var s := hour * 3600 + min * 60 + sec;
    assert s / 60 == hour * 60 + min;
  }

  /** fields -> seconds -> fields: `UtcTime` is the only broken-down time of a second. */
  lemma UtcFieldsRoundTrip(tm: Tm)
    requires ValidClock(tm) && InCalendar(DateOf(tm))
    ensures var r := UtcTime(FromUtcTime(tm), false);
            DateOf(r) == DateOf(tm) && r.hour == tm.hour && r.min == tm.min && r.sec == tm.sec
  {
    hide ToYearMonthDay, JulianDayNumber, WeekDay, InCalendar;
    DateRoundTrip(DateOf(tm));
    SecondOfClock(tm.hour, tm.min, tm.sec);
    var s := tm.hour * 3600 + tm.min * 60 + tm.sec;
    var days := DayNumberOf(DateOf(tm)) - JULIAN_DAY_OF_1970_01_01;
    assert FromUtcTime(tm) == days * SECONDS_PER_DAY + s;
    assert FromUtcTime(tm) / SECONDS_PER_DAY == days && FromUtcTime(tm) % SECONDS_PER_DAY == s;
  }

  /** Section 4.16 of the POSIX.1-2017 Base Definitions, "Seconds Since the Epoch". */
  function PosixSeconds(tm: Tm): int {
    tm.sec + tm.min * 60 + tm.hour * 3600 + tm.yday * 86400 +
    (tm.year - 70) * 31536000 + ((tm.year - 69) / 4) * 86400 -
    ((tm.year - 1) / 100) * 86400 + ((tm.year + 299) / 400) * 86400
  }

  lemma FirstOfYear(year: int)
    requires year >= 1970
    ensures JulianDayNumber(year, 1, 1) - JULIAN_DAY_OF_1970_01_01
            == 365 * (year - 1970) + (year - 1969) / 4 - (year - 1901) / 100 + (year - 1601) / 400
  {
    var y := year + 4799;
    assert y / 4 == (year - 1969) / 4 + 1692;
    assert y / 100 == (year - 1901) / 100 + 67;
    assert y / 400 == (year - 1601) / 400 + 16;
  }

  /** From 1970 on the second is the one POSIX computes from the fields and `tm_yday`. */
  lemma UtcIsPosixTime(t: int)
    requires InCalendarRange(t) && UtcTime(t, true).year >= 70
    ensures PosixSeconds(UtcTime(t, true)) == t
  {
    hide ToYearMonthDay, JulianDayNumber, WeekDay;
    FirstOfYear(UtcTime(t, true).year + 1900);
    ClockOfSecond(t % SECONDS_PER_DAY);
  }

  /** Days of the year before `d`, counted month by month. */
  function Ordinal(d: YearMonthDay): int
    requires 1 <= d.month <= 12
    decreases d.month
  {
    if d.month == 1 then d.day - 1
    else Ordinal(d.(month := d.month - 1)) + DaysInMonth(d.year, d.month - 1)
  }

  lemma DayNumberInMonth(d: YearMonthDay)
    ensures DayNumberOf(d) == DayNumberOf(d.(day := 1)) + d.day - 1
  {
    hide Quot;
  }

  lemma MonthAfterMonth(d: YearMonthDay)
    requires 2 <= d.month <= 12 && InCalendar(YearMonthDay(d.year, d.month - 1, 1))
    ensures DayNumberOf(d) == DayNumberOf(d.(month := d.month - 1)) + DaysInMonth(d.year, d.month - 1)
  {
    hide JulianDayNumber;
    var p := YearMonthDay(d.year, d.month - 1, 1);
    DayNumberInMonth(d);
    DayNumberInMonth(d.(month := d.month - 1));
    MonthLengths(p);
    DayNumberByMarchYear(p);
    DayNumberByMarchYear(YearMonthDay(d.year, d.month, 1));
    if d.month == 3 { YearStartStep(MarchYear(p)); }
  }

  lemma {:induction false} OrdinalIsDifference(d: YearMonthDay)
    requires 1 <= d.month <= 12 && d.year > -4800
    ensures Ordinal(d) == DayNumberOf(d) - JulianDayNumber(d.year, 1, 1)
    decreases d.month
  {
    hide JulianDayNumber;
    if d.month == 1 {
      DayNumberInMonth(d);
    } else {
      OrdinalIsDifference(d.(month := d.month - 1));
      MonthAfterMonth(d);
    }
  }

  lemma {:induction false} FirstYearOrdinal(d: YearMonthDay)
    requires d.year == -4800 && 3 <= d.month <= 12
    ensures Ordinal(d) == DayNumberOf(d) - JulianDayNumber(-4800, 1, 1) + 1
    decreases d.month
  {
    if d.month > 3 {
      hide JulianDayNumber;
      FirstYearOrdinal(d.(month := d.month - 1));
      MonthAfterMonth(d);
    } else {
      assert Ordinal(YearMonthDay(-4800, 2, d.day)) == d.day - 1 + 31;
    }
  }

  /** `tm_yday` counts the days of the year before the date exactly after the year -4800,
      whose 1 January lies before FIRST_DATE. */
  lemma DayOfYear(t: int)
    requires InCalendarRange(t)
    ensures var tm := UtcTime(t, true);
            1 <= DateOf(tm).month <= 12 &&
            (tm.yday == Ordinal(DateOf(tm)) <==> tm.year + 1900 > -4800)
  {
    hide ToYearMonthDay, JulianDayNumber, WeekDay;
    var d := ToYearMonthDay(DayNumberAt(t));
    DayNumberRoundTrip(DayNumberAt(t));
    assert d == DateOf(UtcTime(t, true));
    if d.year > -4800 {
      OrdinalIsDifference(d);
    } else {
      FirstYearOrdinal(d);
    }
  }

  // ---------- The transition table ----------

  datatype Transition = Transition(gmttime: int, localtime: int, localtimeIdx: nat)
  datatype Localtime = Localtime(gmtOffset: int, isDst: bool, arrbIdx: int)
  datatype Data = Data(transitions: seq<Transition>, localtimes: seq<Localtime>)

  /** What the table reader builds: type indices in range, at least one type, and each
      transition's local time shifted by the offset it switches to. */
  predicate WellFormed(data: Data) {
    && |data.localtimes| > 0
    && forall k :: 0 <= k < |data.transitions| ==>
         var tr := data.transitions[k];
         tr.localtimeIdx < |data.localtimes| &&
         tr.localtime == tr.gmttime + data.localtimes[tr.localtimeIdx].gmtOffset
  }

  /** The two orderings of `Comp`. */
  function Key(tr: Transition, gmt: bool): int { if gmt then tr.gmttime else tr.localtime }

  predicate Sorted(trs: seq<Transition>, gmt: bool) {
    forall i, j :: 0 <= i < j < |trs| ==> Key(trs[i], gmt) < Key(trs[j], gmt)
  }

  /** The last transition at or before `key`, found by scanning from the back; -1 if none. */
  function LastAtOrBefore(trs: seq<Transition>, gmt: bool, key: int): (k: int)
    ensures -1 <= k < |trs|
    ensures k >= 0 ==> Key(trs[k], gmt) <= key
    ensures forall i :: k < i < |trs| ==> key < Key(trs[i], gmt)
  {
    if trs == [] then -1
    else if Key(trs[|trs| - 1], gmt) <= key then |trs| - 1
    else LastAtOrBefore(trs[..|trs| - 1], gmt, key)
  }

  lemma LastIs(trs: seq<Transition>, gmt: bool, key: int, k: int)
    requires Sorted(trs, gmt) && -1 <= k < |trs|
    requires k >= 0 ==> Key(trs[k], gmt) <= key
    requires k + 1 < |trs| ==> key < Key(trs[k + 1], gmt)
    ensures LastAtOrBefore(trs, gmt, key) == k
  {
  }

  /** The type in force after transition `k`; type 0 before the first (section 3.2 of RFC 8536). */
  function TypeAfter(data: Data, k: int): Localtime
    requires WellFormed(data) && -1 <= k < |data.transitions|
  {
    if k < 0 then data.localtimes[0] else data.localtimes[data.transitions[k].localtimeIdx]
  }

  function TypeAt(data: Data, gmt: bool, key: int): Localtime
    requires WellFormed(data)
  {
    TypeAfter(data, LastAtOrBefore(data.transitions, gmt, key))
  }

  /** `std::lower_bound` */
  method LowerBound(trs: seq<Transition>, sentry: Transition, gmt: bool) returns (first: nat)
    requires Sorted(trs, gmt)
    ensures first <= |trs|
    ensures forall i :: 0 <= i < first ==> Key(trs[i], gmt) < Key(sentry, gmt)
    ensures forall i :: first <= i < |trs| ==> Key(sentry, gmt) <= Key(trs[i], gmt)
  {
    first := 0;
    var len := |trs|;
    while len > 0
      invariant 0 <= len && first + len <= |trs|
      invariant forall i :: 0 <= i < first ==> Key(trs[i], gmt) < Key(sentry, gmt)
      invariant forall i :: first + len <= i < |trs| ==> Key(sentry, gmt) <= Key(trs[i], gmt)
    {
      var half := len / 2;
      if Key(trs[first + half], gmt) < Key(sentry, gmt) {
        first := first + half + 1;
        len := len - half - 1;
      } else {
        len := half;
      }
    }
  }

  /** Binary search finds exactly what the linear scan finds, under either ordering. */
  method FindLocaltime(data: Data, sentry: Transition, gmt: bool) returns (local: Localtime)
    requires WellFormed(data) && Sorted(data.transitions, gmt)
    ensures local == TypeAt(data, gmt, Key(sentry, gmt))
  {
    var trs := data.transitions;
    if trs == [] || Key(sentry, gmt) < Key(trs[0], gmt) {
      local := data.localtimes[0];
    } else {
      var i := LowerBound(trs, sentry, gmt);
      if i < |trs| {
        if Key(sentry, gmt) != Key(trs[i], gmt) {
          assert i > 0;
          i := i - 1;
        }
        LastIs(trs, gmt, Key(sentry, gmt), i);
        local := data.localtimes[trs[i].localtimeIdx];
      } else {
        local := data.localtimes[trs[|trs| - 1].localtimeIdx];
      }
    }
  }

  // ---------- Local time ----------

  function LocalTime(data: Data, t: int): Tm
    requires WellFormed(data)
  {
    var local := TypeAt(data, true, t);
    UtcTime(t + local.gmtOffset, true)
      .(isDst := local.isDst, gmtOffset := local.gmtOffset, zone := Abbreviation(local.arrbIdx))
  }

  /** The adjustment of lines 317-327: a daylight time that falls in the hour after the
      switch back is taken for its first occurrence. */
  predicate TakesEarlierHour(data: Data, tm: Tm, seconds: int, offset: int)
    requires WellFormed(data)
  {
    var tryTm := LocalTime(data, seconds - offset);
    tm.isDst && !tryTm.isDst && tryTm.hour == tm.hour && tryTm.min == tm.min
  }

  function FromLocal(data: Data, tm: Tm): int
    requires WellFormed(data)
  {
    var seconds := FromUtcTime(tm);
    var offset := TypeAt(data, false, seconds).gmtOffset;
    seconds - offset - (if TakesEarlierHour(data, tm, seconds, offset) then 3600 else 0)
  }

  method ToLocalTime(data: Data, seconds: int) returns (localTime: Tm)
    requires WellFormed(data) && Sorted(data.transitions, true)
    ensures InInt32((seconds + TypeAt(data, true, seconds).gmtOffset) / SECONDS_PER_DAY)
            ==> localTime == LocalTime(data, seconds)
  {
    hide ToYearMonthDay, JulianDayNumber, WeekDay;
    var sentry := Transition(seconds, 0, 0);
    var local := FindLocaltime(data, sentry, true);
    var localSeconds := seconds + local.gmtOffset;
    localTime := ToUtcTime(localSeconds, true);
    localTime := localTime.(isDst := local.isDst);
    localTime := localTime.(gmtOffset := local.gmtOffset);
    localTime := localTime.(zone := Abbreviation(local.arrbIdx));
  }

  /** What the broken-down local time of `t` says: the second it denotes is `t` plus the offset in
      force, whose type also gives the flag, the offset and the abbreviation; the weekday and the
      day of the year are those of the local date. */
  lemma LocalTimeFields(data: Data, t: int)
    requires WellFormed(data) && InCalendarRange(LocalSeconds(data, t))
    ensures var tm := LocalTime(data, t);
            var inForce := TypeAfter(data, LastAtOrBefore(data.transitions, true, t));
            var local := t + inForce.gmtOffset;
            && FromUtcTime(tm) == local && ValidClock(tm) && InCalendar(DateOf(tm))
            && tm.isDst == inForce.isDst && tm.gmtOffset == inForce.gmtOffset
            && tm.zone == Abbreviation(inForce.arrbIdx)
            && (DayNumberAt(local) >= -1 ==> tm.wday == (local / 86400 + 4) % 7)
            && (tm.yday == Ordinal(DateOf(tm)) <==> tm.year + 1900 > -4800)
  {
    hide UtcTime, FromUtcTime, InCalendarRange, LastAtOrBefore, WellFormed, Ordinal, InCalendar;
    var local := LocalSeconds(data, t);
    var tm := LocalTime(data, t);
    UtcRoundTrip(local, true);
    DayOfYear(local);
    WeekDayOf(local, true);
    ZoneIsIgnored(UtcTime(local, true), tm.isDst, tm.gmtOffset, tm.zone);
  }

  method FromLocalTime(data: Data, localTm: Tm) returns (t: int)
    requires WellFormed(data) && Sorted(data.transitions, true) && Sorted(data.transitions, false)
    ensures (var s := FromUtcTime(localTm);
             var u := s - TypeAt(data, false, s).gmtOffset;
             InInt32((u + TypeAt(data, true, u).gmtOffset) / SECONDS_PER_DAY))
            ==> t == FromLocal(data, localTm)
  {
    hide FromUtcTime, UtcTime;
    var seconds := FromUtcTime(localTm);
    var sentry := Transition(0, seconds, 0);
    var local := FindLocaltime(data, sentry, false);
    if localTm.isDst {
      var tryTm := ToLocalTime(data, seconds - local.gmtOffset);
      if !tryTm.isDst && tryTm.hour == localTm.hour && tryTm.min == localTm.min {
        seconds := seconds - 3600;
      }
    }
    t := seconds - local.gmtOffset;
  }

  // ---------- The round trip ----------

  function Offset(data: Data, k: int): int
    requires WellFormed(data) && -1 <= k < |data.transitions|
  {
    TypeAfter(data, k).gmtOffset
  }

  function Jump(data: Data, k: int): int
    requires WellFormed(data) && 0 <= k < |data.transitions|
  {
    Offset(data, k) - Offset(data, k - 1)
  }

  /** By how much transition `k` sets the local clock back. */
  function Back(data: Data, k: int): nat
    requires WellFormed(data) && 0 <= k < |data.transitions|
  {
    if Jump(data, k) < 0 then -Jump(data, k) else 0
  }

  function Gap(data: Data, k: int): int
    requires 0 < k < |data.transitions|
  {
    data.transitions[k].gmttime - data.transitions[k - 1].gmttime
  }

  /** Transitions lie further apart than each of the two sets the clock back ... */
  predicate Apart(data: Data)
    requires WellFormed(data)
  {
    forall k :: 0 < k < |data.transitions| ==> Gap(data, k) > Back(data, k - 1) && Gap(data, k) > Back(data, k)
  }

  /** ... or than both do together. The two differ only where two transitions in a row set the
      clock back. */
  predicate Separated(data: Data)
    requires WellFormed(data)
  {
    forall k :: 0 < k < |data.transitions| ==> Gap(data, k) > Back(data, k - 1) + Back(data, k)
  }

  /** The change the adjustment was written for: back one hour, from daylight to standard time. */
  predicate IsFallBack(data: Data, k: int)
    requires WellFormed(data) && 0 <= k < |data.transitions|
  {
    TypeAfter(data, k - 1).isDst && !TypeAfter(data, k).isDst && Jump(data, k) == -3600
  }

  /** `t` lies in the stretch of local time that transition `k` is about to repeat. */
  predicate IsRepeatedBy(data: Data, t: int, k: int)
    requires WellFormed(data) && 0 <= k < |data.transitions|
  {
    var g := data.transitions[k].gmttime;
    Jump(data, k) < 0 && g + Jump(data, k) <= t < g && LastAtOrBefore(data.transitions, true, t) == k - 1
  }

  lemma {:induction false} ApartIsSorted(data: Data, i: int, j: int)
    requires WellFormed(data) && Apart(data)
    requires 0 <= i < j < |data.transitions|
    ensures data.transitions[i].gmttime < data.transitions[j].gmttime
    ensures data.transitions[i].localtime < data.transitions[j].localtime
    decreases j - i
  {
    var trs := data.transitions;
    assert Offset(data, j) == data.localtimes[trs[j].localtimeIdx].gmtOffset;
    assert Offset(data, j - 1) == data.localtimes[trs[j - 1].localtimeIdx].gmtOffset;
    assert Gap(data, j) > Back(data, j);
    if i < j - 1 {
      ApartIsSorted(data, i, j - 1);
    }
  }

  lemma ApartSorts(data: Data)
    requires WellFormed(data) && Apart(data)
    ensures Sorted(data.transitions, true) && Sorted(data.transitions, false)
  {
    forall i, j | 0 <= i < j < |data.transitions|
      ensures Key(data.transitions[i], true) < Key(data.transitions[j], true)
      ensures Key(data.transitions[i], false) < Key(data.transitions[j], false)
    {
      ApartIsSorted(data, i, j);
    }
  }

  lemma LocalKey(data: Data, k: int)
    requires WellFormed(data) && Apart(data) && 0 <= k < |data.transitions|
    ensures data.transitions[k].localtime == data.transitions[k].gmttime + Offset(data, k)
    ensures k > 0 ==> Gap(data, k) > Back(data, k - 1) && Gap(data, k) > Back(data, k)
  {
  }

  /** Searching by local time finds the type in force at `t`, unless `t` is about to be
      repeated ... */
  lemma LocalSearchPlain(data: Data, t: int, i: int)
    requires WellFormed(data) && Apart(data)
    requires i == LastAtOrBefore(data.transitions, true, t)
    requires i + 1 < |data.transitions| ==> !IsRepeatedBy(data, t, i + 1)
    ensures LastAtOrBefore(data.transitions, false, t + Offset(data, i)) == i
  {
    hide LastAtOrBefore, Sorted, Apart, WellFormed, TypeAfter, Offset;
    ApartSorts(data);
    if i >= 0 { LocalKey(data, i); }
    if i + 1 < |data.transitions| { LocalKey(data, i + 1); }
    LastIs(data.transitions, false, t + Offset(data, i), i);
  }

  /** The local time at `t` comes before the transition after `k`, also by local time. */
  predicate NotOvertaken(data: Data, t: int, k: int)
    requires WellFormed(data) && 0 <= k < |data.transitions|
  {
    k + 1 < |data.transitions| ==> t + Offset(data, k - 1) < data.transitions[k + 1].localtime
  }

  /** ... and then, if no further transition comes in between, it finds the next one, whose
      local time reads the same. */
  lemma LocalSearchRepeated(data: Data, t: int, k: int)
    requires WellFormed(data) && Apart(data)
    requires 0 <= k < |data.transitions| && IsRepeatedBy(data, t, k) && NotOvertaken(data, t, k)
    ensures var local := t + Offset(data, k - 1);
            && LastAtOrBefore(data.transitions, false, local) == k
            && LastAtOrBefore(data.transitions, true, local - Offset(data, k)) == k
  {
    hide LastAtOrBefore, Sorted, Apart, WellFormed, TypeAfter, Offset;
    ApartSorts(data);
    LocalKey(data, k);
    if k + 1 < |data.transitions| { LocalKey(data, k + 1); }
    var local := t + Offset(data, k - 1);
    LastIs(data.transitions, false, local, k);
    LastIs(data.transitions, true, local - Offset(data, k), k);
  }

  function LocalSeconds(data: Data, t: int): int
    requires WellFormed(data)
  {
    t + TypeAt(data, true, t).gmtOffset
  }

  lemma PlainRoundTrip(data: Data, t: int)
    requires WellFormed(data) && Apart(data) && InCalendarRange(LocalSeconds(data, t))
    requires forall k :: 0 <= k < |data.transitions| ==> !IsRepeatedBy(data, t, k)
    ensures FromLocal(data, LocalTime(data, t)) == t
  {
    hide FromUtcTime, UtcTime, InCalendarRange, LastAtOrBefore, WellFormed, Apart;
    var i := LastAtOrBefore(data.transitions, true, t);
    var local := LocalSeconds(data, t);
    var tm := LocalTime(data, t);
    UtcRoundTrip(local, true);
    ZoneIsIgnored(UtcTime(local, true), tm.isDst, tm.gmtOffset, tm.zone);
    LocalSearchPlain(data, t, i);
  }

  lemma RepeatedRoundTrip(data: Data, t: int, k: int)
    requires WellFormed(data) && Apart(data) && InCalendarRange(LocalSeconds(data, t))
    requires 0 <= k < |data.transitions| && IsRepeatedBy(data, t, k) && NotOvertaken(data, t, k)
    ensures FromLocal(data, LocalTime(data, t)) == t <==> IsFallBack(data, k)
  {
    hide FromUtcTime, UtcTime, InCalendarRange, LastAtOrBefore, WellFormed, Apart;
    var local := LocalSeconds(data, t);
    var tm := LocalTime(data, t);
    UtcRoundTrip(local, true);
    ZoneIsIgnored(UtcTime(local, true), tm.isDst, tm.gmtOffset, tm.zone);
    LocalSearchRepeated(data, t, k);
    var u := local - Offset(data, k);
    assert TypeAt(data, true, u) == TypeAfter(data, k);
    assert TakesEarlierHour(data, tm, local, Offset(data, k)) <==> tm.isDst && !TypeAfter(data, k).isDst;
  }

  lemma SeparatedIsApart(data: Data)
    requires WellFormed(data) && Separated(data)
    ensures Apart(data)
  {
    forall k | 0 < k < |data.transitions|
      ensures Gap(data, k) > Back(data, k - 1) && Gap(data, k) > Back(data, k)
    {
      assert Gap(data, k) > Back(data, k - 1) + Back(data, k);
    }
  }

  lemma SeparatedNotOvertaken(data: Data, t: int, k: int)
    requires WellFormed(data) && Separated(data) && 0 <= k < |data.transitions| && IsRepeatedBy(data, t, k)
    ensures NotOvertaken(data, t, k)
  {
    SeparatedIsApart(data);
    if k + 1 < |data.transitions| {
      assert Gap(data, k + 1) > Back(data, k) + Back(data, k + 1);
      hide Separated, WellFormed, LastAtOrBefore, Apart;
      LocalKey(data, k);
      LocalKey(data, k + 1);
    }
  }

  /** Exactly when local time converts back: unless `t` is about to be repeated, or it is
      repeated by the kind of change the adjustment recognises. */
  lemma LocalRoundTrip(data: Data, t: int)
    requires WellFormed(data) && Separated(data)
    requires InCalendarRange(LocalSeconds(data, t))
    ensures FromLocal(data, LocalTime(data, t)) == t
            <==> forall k :: 0 <= k < |data.transitions| && IsRepeatedBy(data, t, k) ==> IsFallBack(data, k)
  {
    hide FromLocal, LocalTime, LocalSeconds, InCalendarRange, LastAtOrBefore;
    hide WellFormed, Apart, Separated, NotOvertaken;
    SeparatedIsApart(data);
    var k := LastAtOrBefore(data.transitions, true, t) + 1;
    if k < |data.transitions| && IsRepeatedBy(data, t, k) {
      SeparatedNotOvertaken(data, t, k);
      RepeatedRoundTrip(data, t, k);
    } else {
      PlainRoundTrip(data, t);
    }
  }

  predicate SameReading(x: Tm, y: Tm) {
    DateOf(x) == DateOf(y) && x.hour == y.hour && x.min == y.min && x.sec == y.sec
  }

  /** Local times from `g + old offset` on are skipped when the clock is set forward at `g`. */
  predicate Skipped(data: Data, local: int, j: int)
    requires WellFormed(data) && -1 <= j < |data.transitions|
  {
    j + 1 < |data.transitions| && data.transitions[j + 1].gmttime + Offset(data, j) <= local
  }

  /** The other way round: the second a standard-time reading is converted to shows that reading
      again, exactly unless it is one of those the clock has skipped. (It can be shown again after
      all if the clock is set again within the stretch it was set forward by.) */
  lemma ReadingConvertsBack(data: Data, tm: Tm)
    requires WellFormed(data) && Sorted(data.transitions, true) && Sorted(data.transitions, false)
    requires ValidClock(tm) && InCalendar(DateOf(tm)) && !tm.isDst
    requires InCalendarRange(LocalSeconds(data, FromLocal(data, tm)))
    ensures var j := LastAtOrBefore(data.transitions, false, FromUtcTime(tm));
            var t := FromLocal(data, tm);
            && t == FromUtcTime(tm) - Offset(data, j)
            && (!Skipped(data, FromUtcTime(tm), j) ==> SameReading(LocalTime(data, t), tm))
            && (Skipped(data, FromUtcTime(tm), j)
                && (j + 2 < |data.transitions| ==> Gap(data, j + 2) >= Jump(data, j + 1))
                ==> !SameReading(LocalTime(data, t), tm))
  {
    hide FromUtcTime, InCalendarRange, LastAtOrBefore, Sorted, WellFormed, FromLocal, LocalTime, LocalSeconds;
    hide TypeAfter, Offset, Skipped, SameReading, InCalendar;
    var local := FromUtcTime(tm);
    var j := LastAtOrBefore(data.transitions, false, local);
    SearchesByUtc(data, local);
    ReadsBack(data, tm, j, LastAtOrBefore(data.transitions, true, local - Offset(data, j)));
  }

  lemma ReadsBack(data: Data, tm: Tm, j: int, i: int)
    requires WellFormed(data) && ValidClock(tm) && InCalendar(DateOf(tm)) && !tm.isDst
    requires InCalendarRange(LocalSeconds(data, FromLocal(data, tm)))
    requires j == LastAtOrBefore(data.transitions, false, FromUtcTime(tm))
    requires i == LastAtOrBefore(data.transitions, true, FromUtcTime(tm) - Offset(data, j))
    ensures FromLocal(data, tm) == FromUtcTime(tm) - Offset(data, j)
    ensures SameReading(LocalTime(data, FromLocal(data, tm)), tm) <==> Offset(data, i) == Offset(data, j)
  {
    hide FromUtcTime, UtcTime, InCalendarRange, LastAtOrBefore, WellFormed, TypeAfter, InCalendar;
    var local := FromUtcTime(tm);
    var t := FromLocal(data, tm);
    assert t == local - Offset(data, j) && LocalSeconds(data, t) == t + Offset(data, i);
    var shown := LocalTime(data, t);
    UtcRoundTrip(LocalSeconds(data, t), true);
    ZoneIsIgnored(UtcTime(LocalSeconds(data, t), true), shown.isDst, shown.gmtOffset, shown.zone);
    SameReadingSameSecond(shown, tm);
    UtcFieldsRoundTrip(tm);
    SameClockAndDate(local);
  }

  lemma SameClockAndDate(t: int)
    ensures SameReading(UtcTime(t, true), UtcTime(t, false))
  {
    hide ToYearMonthDay, JulianDayNumber, WeekDay;
  }

  lemma SameReadingSameSecond(x: Tm, y: Tm)
    ensures SameReading(x, y) ==> FromUtcTime(x) == FromUtcTime(y)
  {
    hide JulianDayNumber;
  }

  lemma SearchesByUtc(data: Data, local: int)
    requires WellFormed(data) && Sorted(data.transitions, true) && Sorted(data.transitions, false)
    ensures var j := LastAtOrBefore(data.transitions, false, local);
            var i := LastAtOrBefore(data.transitions, true, local - Offset(data, j));
            && (!Skipped(data, local, j) ==> i == j)
            && (Skipped(data, local, j) && (j + 2 < |data.transitions| ==> Gap(data, j + 2) >= Jump(data, j + 1))
                ==> i == j + 1 && Offset(data, i) > Offset(data, j))
  {
    hide LastAtOrBefore, Sorted, WellFormed, TypeAfter, Offset;
    var trs := data.transitions;
    var j := LastAtOrBefore(trs, false, local);
    if j >= 0 { LocalIsShifted(data, j); }
    if j + 1 < |trs| { LocalIsShifted(data, j + 1); }
    var u := local - Offset(data, j);
    if !Skipped(data, local, j) {
      LastIs(trs, true, u, j);
    } else if j + 2 < |trs| ==> Gap(data, j + 2) >= Jump(data, j + 1) {
      LastIs(trs, true, u, j + 1);
    }
  }

  lemma LocalIsShifted(data: Data, k: int)
    requires WellFormed(data) && 0 <= k < |data.transitions|
    ensures data.transitions[k].localtime == data.transitions[k].gmttime + Offset(data, k)
  {
  }

  /** An hour after `t` the local clock shows standard time with the same hour and minute. */
  predicate RepeatsAsStandard(data: Data, t: int)
    requires WellFormed(data)
  {
    var tm, later := LocalTime(data, t), LocalTime(data, t + 3600);
    !later.isDst && later.hour == tm.hour && later.min == tm.min
  }

  /** On any table sorted both ways, however close its transitions: `i` is the transition in
      force at `t`, `j` the one a search by local time finds, which is never an earlier one. Local
      time converts back exactly if they are the same, or `j` is one hour behind daylight time
      and an hour later the clock shows the same as standard time. */
  lemma LocalRoundTripSorted(data: Data, t: int)
    requires WellFormed(data) && Sorted(data.transitions, true) && Sorted(data.transitions, false)
    requires InCalendarRange(LocalSeconds(data, t))
    ensures var i := LastAtOrBefore(data.transitions, true, t);
            var j := LastAtOrBefore(data.transitions, false, LocalSeconds(data, t));
            && i <= j
            && (FromLocal(data, LocalTime(data, t)) == t
                <==> i == j || (TypeAfter(data, i).isDst && Offset(data, i) - Offset(data, j) == 3600
                                && RepeatsAsStandard(data, t)))
            && (i < j <==> i + 1 < |data.transitions| && IsRepeatedBy(data, t, i + 1))
            && (j == i + 1 <==> i + 1 < |data.transitions| && IsRepeatedBy(data, t, i + 1)
                                && NotOvertaken(data, t, i + 1))
  {
    hide LastAtOrBefore, WellFormed, Sorted, IsRepeatedBy, NotOvertaken, InCalendarRange;
    hide FromLocal, LocalTime, LocalSeconds, TypeAfter, Offset, RepeatsAsStandard;
    SearchesByLocalTime(data, t);
    ConvertsBack(data, t, LastAtOrBefore(data.transitions, true, t),
                 LastAtOrBefore(data.transitions, false, LocalSeconds(data, t)));
  }

  lemma ConvertsBack(data: Data, t: int, i: int, j: int)
    requires WellFormed(data) && InCalendarRange(LocalSeconds(data, t))
    requires i == LastAtOrBefore(data.transitions, true, t)
    requires j == LastAtOrBefore(data.transitions, false, LocalSeconds(data, t))
    requires i <= j && (i < j ==> Offset(data, i) > Offset(data, j))
    ensures FromLocal(data, LocalTime(data, t)) == t
            <==> i == j || (TypeAfter(data, i).isDst && Offset(data, i) - Offset(data, j) == 3600
                            && RepeatsAsStandard(data, t))
  {
    hide FromUtcTime, UtcTime, InCalendarRange, LastAtOrBefore, WellFormed, TypeAfter;
    var local := LocalSeconds(data, t);
    var tm := LocalTime(data, t);
    UtcRoundTrip(local, true);
    ZoneIsIgnored(UtcTime(local, true), tm.isDst, tm.gmtOffset, tm.zone);
    assert FromUtcTime(tm) == local && tm.isDst == TypeAfter(data, i).isDst;
    assert TypeAt(data, false, local) == TypeAfter(data, j);
    var u := local - Offset(data, j);
    assert i == j ==> u == t;
  }

  lemma SearchesByLocalTime(data: Data, t: int)
    requires WellFormed(data) && Sorted(data.transitions, true) && Sorted(data.transitions, false)
    ensures var i := LastAtOrBefore(data.transitions, true, t);
            var j := LastAtOrBefore(data.transitions, false, LocalSeconds(data, t));
            && i <= j && (i < j ==> Offset(data, i) > Offset(data, j))
            && (i < j <==> i + 1 < |data.transitions| && IsRepeatedBy(data, t, i + 1))
            && (j == i + 1 <==> i + 1 < |data.transitions| && IsRepeatedBy(data, t, i + 1)
                                && NotOvertaken(data, t, i + 1))
  {
    var trs := data.transitions;
    var i := LastAtOrBefore(trs, true, t);
    var local := LocalSeconds(data, t);
    var j := LastAtOrBefore(trs, false, local);
    hide LastAtOrBefore;
    assert local == t + Offset(data, i);
    forall k | 0 <= k < |trs| ensures Key(trs[k], false) == Key(trs[k], true) + Offset(data, k) { }
    if i < j {
      assert t < Key(trs[j], true) && Key(trs[j], false) <= local;
      assert i + 1 < j ==> Key(trs[i + 1], false) < Key(trs[j], false);
    }
  }

  lemma ZoneIsIgnored(tm: Tm, isDst: bool, gmtOffset: int, zone: Zone)
    ensures FromUtcTime(tm.(isDst := isDst, gmtOffset := gmtOffset, zone := zone)) == FromUtcTime(tm)
  {
    hide JulianDayNumber;
  }

  /** Times and offsets as the table reader stores them. */
  predicate FitsInt32(data: Data) {
    && (forall tr <- data.transitions :: InInt32(tr.gmttime))
    && (forall lt <- data.localtimes :: InInt32(lt.gmtOffset))
  }

  /** If each set-back is one hour from daylight to standard time, no two come in a row. */
  lemma FallBacksAlternate(data: Data, k: int)
    requires WellFormed(data) && Apart(data) && 0 < k < |data.transitions|
    requires IsFallBack(data, k - 1) && (Jump(data, k) < 0 ==> IsFallBack(data, k))
    ensures Back(data, k) == 0 && Gap(data, k) > Back(data, k - 1)
  {
  }

  lemma FallBacksRoundTrip(data: Data, t: int)
    requires WellFormed(data) && Apart(data) && InCalendarRange(LocalSeconds(data, t))
    requires forall k :: 0 <= k < |data.transitions| && Jump(data, k) < 0 ==> IsFallBack(data, k)
    ensures FromLocal(data, LocalTime(data, t)) == t
  {
    hide FromLocal, LocalTime, InCalendarRange, LastAtOrBefore;
    var k := LastAtOrBefore(data.transitions, true, t) + 1;
    if k < |data.transitions| && IsRepeatedBy(data, t, k) {
      LocalKey(data, k);
      if k + 1 < |data.transitions| {
        FallBacksAlternate(data, k + 1);
        LocalKey(data, k + 1);
      }
      RepeatedRoundTrip(data, t, k);
    } else {
      PlainRoundTrip(data, t);
    }
  }

  /** The first second transition `k` is about to repeat. */
  lemma FirstRepeatedSecond(data: Data, k: int)
    requires WellFormed(data) && Apart(data) && FitsInt32(data)
    requires 0 <= k < |data.transitions| && Jump(data, k) < 0
    ensures var t := data.transitions[k].gmttime + Jump(data, k);
            InCalendarRange(LocalSeconds(data, t)) && IsRepeatedBy(data, t, k) && NotOvertaken(data, t, k)
  {
    hide LastAtOrBefore, Sorted, Apart, InCalendarRange, FitsInt32, WellFormed, TypeAfter, Offset;
    StoredValuesFit(data, k);
    ApartSorts(data);
    LocalKey(data, k);
    if k + 1 < |data.transitions| { ApartIsSorted(data, k, k + 1); }
    var t := data.transitions[k].gmttime + Jump(data, k);
    LastIs(data.transitions, true, t, k - 1);
    LocalSecondsAt(data, t, k - 1);
    StoredTimesInRange(LocalSeconds(data, t));
  }

  lemma StoredValuesFit(data: Data, k: int)
    requires WellFormed(data) && FitsInt32(data) && 0 <= k < |data.transitions|
    ensures InInt32(data.transitions[k].gmttime) && InInt32(Offset(data, k))
  {
    assert data.transitions[k] in data.transitions;
    assert TypeAfter(data, k) in data.localtimes;
  }

  lemma LocalSecondsAt(data: Data, t: int, i: int)
    requires WellFormed(data) && i == LastAtOrBefore(data.transitions, true, t)
    ensures LocalSeconds(data, t) == t + Offset(data, i)
  {
  }

  lemma StoredTimesInRange(t: int)
    requires -0x2_0000_0000 <= t <= 0x2_0000_0000
    ensures InCalendarRange(t)
  {
  }

  /** A table round-trips at every time exactly when each of its backward jumps is one hour
      from daylight to standard time. */
  lemma LocalRoundTripEverywhere(data: Data)
    requires WellFormed(data) && Apart(data) && FitsInt32(data)
    ensures (forall t :: InCalendarRange(LocalSeconds(data, t)) ==> FromLocal(data, LocalTime(data, t)) == t)
            <==> forall k :: 0 <= k < |data.transitions| && Jump(data, k) < 0 ==> IsFallBack(data, k)
  {
    hide FromLocal, LocalTime, InCalendarRange, LocalSeconds, IsFallBack, Apart;
    if forall k :: 0 <= k < |data.transitions| && Jump(data, k) < 0 ==> IsFallBack(data, k) {
      forall t | InCalendarRange(LocalSeconds(data, t)) ensures FromLocal(data, LocalTime(data, t)) == t {
        FallBacksRoundTrip(data, t);
      }
    }
    forall k | 0 <= k < |data.transitions| && Jump(data, k) < 0 && !IsFallBack(data, k)
      ensures exists t :: InCalendarRange(LocalSeconds(data, t)) && FromLocal(data, LocalTime(data, t)) != t
    {
      FirstRepeatedSecond(data, k);
      RepeatedRoundTrip(data, data.transitions[k].gmttime + Jump(data, k), k);
    }
  }

  /** At a single time it is not enough that transitions lie further apart than each sets the
      clock back: here the clock is set back twice within 4000 seconds, an hour each, and a time
      that only the first, from daylight to standard time, repeats is carried past the second. */
  lemma TwoSetBacksInARow(g: int) returns (data: Data)
    requires -0x8000_0000 <= g <= 0x7000_0000
    ensures WellFormed(data) && Apart(data) && !Separated(data) && |data.transitions| == 2
    ensures IsRepeatedBy(data, g - 1, 0) && IsFallBack(data, 0) && !IsRepeatedBy(data, g - 1, 1)
    ensures FromLocal(data, LocalTime(data, g - 1)) != g - 1
  {
    hide UtcTime, FromUtcTime, LastAtOrBefore, Sorted, InCalendarRange;
    data := TwoSetBacks(g);
    LooksUpTwoSetBacks(g);
    var tm := LocalTime(data, g - 1);
    StoredTimesInRange(g + 7199);
    UtcRoundTrip(g + 7199, true);
    ZoneIsIgnored(UtcTime(g + 7199, true), tm.isDst, tm.gmtOffset, tm.zone);
    assert FromUtcTime(tm) == g + 7199;
    assert TypeAt(data, false, g + 7199).gmtOffset == 0;
    assert TakesEarlierHour(data, tm, g + 7199, 0);
  }

  function TwoSetBacks(g: int): (data: Data)
    ensures WellFormed(data)
  {
    Data([Transition(g, g + 3600, 1), Transition(g + 4000, g + 4000, 2)],
         [Localtime(7200, true, 0), Localtime(3600, false, 0), Localtime(0, false, 0)])
  }

  lemma LooksUpTwoSetBacks(g: int)
    ensures var data := TwoSetBacks(g);
            && Apart(data) && !Separated(data) && IsFallBack(data, 0) && Jump(data, 1) == -3600
            && LastAtOrBefore(data.transitions, true, g - 1) == -1
            && LastAtOrBefore(data.transitions, false, g + 7199) == 1
            && LastAtOrBefore(data.transitions, true, g + 7199) == 1
  {
    var data := TwoSetBacks(g);
    assert Jump(data, 0) == -3600 && Jump(data, 1) == -3600 && Gap(data, 1) == 4000;
    assert Gap(data, 1) <= Back(data, 0) + Back(data, 1);
    ApartSorts(data);
    hide LastAtOrBefore, Sorted;
    LastIs(data.transitions, true, g - 1, -1);
    LastIs(data.transitions, false, g + 7199, 1);
    LastIs(data.transitions, true, g + 7199, 1);
  }
}
