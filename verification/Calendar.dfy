/** Days to civil dates: the conversion used for timestamps is the proleptic Gregorian calendar.
    A date is valid as section 5.7 and appendix C of RFC 3339 define it. */
module Calendar {

  datatype Date = Date(year: int, month: int, day: int)

  // ---- The conversion ----

  /** Day of the era to year of the era. */
  function YearOf(doe: int): int { (doe - doe / 1460 + doe / 36_524 - doe / 146_096) / 365 }

  /** First day of a year of the era; years and months are counted from March. */
  function YearStart(yoe: int): int { 365 * yoe + yoe / 4 - yoe / 100 }

  function MonthOf(doy: int): int { (5 * doy + 2) / 153 }

  function MonthStart(mp: int): int { (153 * mp + 2) / 5 }

  /** `civil_from_days`; day 0 is the Unix epoch. Division and remainder are Euclidean, as in the
      program. */
  function FromDays(z0: int): Date {
    var z := z0 + 719_468;
    var era := z / 146_097;
    var doe := z % 146_097;
    var yoe := YearOf(doe);
    var y := yoe + era * 400;
    var doy := doe - YearStart(yoe);
    var mp := MonthOf(doy);
    var d := doy - MonthStart(mp) + 1;
    var m := if mp < 10 then mp + 3 else mp - 9;
    Date(if m <= 2 then y + 1 else y, m, d)
  }

  // ---- The calendar ----

  predicate Leap(y: int) { y % 4 == 0 && (y % 100 != 0 || y % 400 == 0) }

  function DaysIn(y: int, m: int): int {
    if m == 2 then (if Leap(y) then 29 else 28)
    else if m in {4, 6, 9, 11} then 30
    else 31
  }

  predicate Valid(d: Date) { 1 <= d.month <= 12 && 1 <= d.day <= DaysIn(d.year, d.month) }

  /** The next day on the calendar. */
  function Successor(d: Date): Date {
    if d.day < DaysIn(d.year, d.month) then d.(day := d.day + 1)
    else if d.month < 12 then Date(d.year, d.month + 1, 1)
    else Date(d.year + 1, 1, 1)
  }

  predicate Before(a: Date, b: Date) {
    a.year < b.year || (a.year == b.year && (a.month < b.month || (a.month == b.month && a.day < b.day)))
  }

  /** The inverse formula, over years that begin in March. */
  function ToDays(d: Date): int {
    var y := if d.month <= 2 then d.year - 1 else d.year;
    var era, yoe := y / 400, y % 400;
    var mp := if d.month > 2 then d.month - 3 else d.month + 9;
    era * 146_097 + YearStart(yoe) + MonthStart(mp) + d.day - 1 - 719_468
  }

  // ---- Years of an era and months of a year, both counted from March ----

  function YearEnd(yoe: int): int { YearStart(yoe + 1) + if yoe == 399 then 1 else 0 }

  /** A day of an era as centuries, four-year cycles and days of the cycle; only the last century of
      an era has a full last cycle. */
  predicate Split(doe: int, c: int, q: int, s: int) {
    && 0 <= c < 4 && 0 <= q < 25 && 0 <= s < 1461
    && (q == 24 && s == 1460 ==> c == 3)
    && doe == 36_524 * c + 1461 * q + s
  }

  lemma SplitExists(doe: int)
    requires 0 <= doe < 146_097
    ensures exists c, q, s :: Split(doe, c, q, s)
  {
    var c := if doe < 36_524 then 0 else if doe < 73_048 then 1 else if doe < 109_572 then 2 else 3;
    var r := doe - 36_524 * c;
    assert Split(doe, c, r / 1461, r % 1461);
  }

  /** The quotients of the formula in terms of the split. */
  lemma Quotients(doe: int, c: int, q: int, s: int)
    requires Split(doe, c, q, s)
    ensures doe / 1460 == 25 * c + q + (24 * c + q + s) / 1460
    ensures doe / 36_524 - doe / 146_096 == c
  {
    assert doe == 1460 * (25 * c + q) + (24 * c + q + s);
    if q == 24 && s == 1460 {
      assert doe == 146_096;
    } else {
      assert 36_524 * c <= doe < 36_524 * (c + 1);
    }
  }

  lemma YearOfSplit(doe: int, c: int, q: int, s: int)
    requires Split(doe, c, q, s)
    ensures YearOf(doe) == 100 * c + 4 * q + (if s == 1460 then 3 else s / 365)
  {
    Quotients(doe, c, q, s);
    var k := (24 * c + q + s) / 1460;
    assert 0 <= k <= 1 && (k == 1 ==> s >= 1364);
    assert doe - doe / 1460 + c == 365 * (100 * c + 4 * q) + (s - k);
    assert (s - k) / 365 == if s == 1460 then 3 else s / 365;
  }

  /** The year-of-era formula finds the year whose days contain `doe`. */
  lemma YearOfContains(doe: int)
    requires 0 <= doe < 146_097
    ensures 0 <= YearOf(doe) < 400
    ensures YearStart(YearOf(doe)) <= doe < YearEnd(YearOf(doe))
  {
    SplitExists(doe);
    var c, q, s :| Split(doe, c, q, s);
    YearOfSplit(doe, c, q, s);
    var n := if s == 1460 then 3 else s / 365;
    YearStartSplit(c, q, n);
  }

  lemma YearStartSplit(c: int, q: int, n: int)
    requires 0 <= c < 4 && 0 <= q < 25 && 0 <= n < 4
    ensures YearStart(100 * c + 4 * q + n) == 36_524 * c + 1461 * q + 365 * n
    ensures YearStart(100 * c + 4 * q + n + 1)
         == 36_524 * c + 1461 * q + 365 * (n + 1) + (if n == 3 then 1 else 0) - (if q == 24 && n == 3 then 1 else 0)
  {
    var y := 100 * c + 4 * q + n;
    assert y / 4 == 25 * c + q && y / 100 == c;
    assert (y + 1) / 4 == 25 * c + q + if n == 3 then 1 else 0;
    assert (y + 1) / 100 == c + if q == 24 && n == 3 then 1 else 0;
  }

  lemma MonthOfContains(doy: int)
    requires 0 <= doy <= 365
    ensures var mp := MonthOf(doy);
            0 <= mp < 12 && MonthStart(mp) <= doy < MonthStart(mp + 1)
  {}

  lemma Mod4(era: int, x: int)
    ensures (era * 400 + x) % 4 == x % 4
  {
    assert era * 400 + x == 4 * (100 * era + x / 4) + x % 4;
  }

  lemma Mod100(era: int, x: int)
    ensures (era * 400 + x) % 100 == x % 100
  {
    assert era * 400 + x == 100 * (4 * era + x / 100) + x % 100;
  }

  lemma Mod400(era: int, x: int)
    ensures (era * 400 + x) % 400 == x % 400
  {
    assert era * 400 + x == 400 * (era + x / 400) + x % 400;
  }

  /** Leap years repeat every 400 years. */
  lemma LeapPeriod(era: int, x: int)
    ensures Leap(era * 400 + x) <==> Leap(x)
  {
    Mod4(era, x);
    Mod100(era, x);
    Mod400(era, x);
  }

  lemma YearSpan(yoe: int)
    requires 0 <= yoe < 400
    ensures YearEnd(yoe) - YearStart(yoe) == if Leap(yoe + 1) then 366 else 365
    ensures YearEnd(yoe) <= 146_097 && (yoe < 399 ==> YearEnd(yoe) == YearStart(yoe + 1))
  {
    var x := yoe + 1;
    assert x / 4 == yoe / 4 + if x % 4 == 0 then 1 else 0;
    assert x / 100 == yoe / 100 + if x % 100 == 0 then 1 else 0;
    assert x % 400 == 0 <==> x == 400;
    assert x % 100 == 0 ==> x % 4 == 0;
  }

  /** The length of the year from March is what the calendar says of the February that ends it. */
  lemma YearLength(era: int, yoe: int)
    requires 0 <= yoe < 400
    ensures YearEnd(yoe) - YearStart(yoe) == 337 + DaysIn(era * 400 + yoe + 1, 2)
    ensures YearEnd(yoe) <= 146_097 && (yoe < 399 ==> YearEnd(yoe) == YearStart(yoe + 1))
  {
    LeapPeriod(era, yoe + 1);
    YearSpan(yoe);
  }

  /** The parts of a March-based date. */
  function Civil(era: int, yoe: int, mp: int, day: int): Date {
    var m := if mp < 10 then mp + 3 else mp - 9;
    Date(era * 400 + yoe + if m <= 2 then 1 else 0, m, day)
  }

  lemma MonthLength(era: int, yoe: int, mp: int)
    requires 0 <= mp < 12
    ensures var d := Civil(era, yoe, mp, 1);
            MonthStart(mp) + DaysIn(d.year, d.month) == if mp == 11 then 337 + DaysIn(d.year, 2) else MonthStart(mp + 1)
  {}

  lemma EraYear(era: int, yoe: int)
    requires 0 <= yoe < 400
    ensures (era * 400 + yoe) / 400 == era && (era * 400 + yoe) % 400 == yoe
  {}

  /** Every date is one such tuple, and `ToDays` reads it back. */
  lemma CivilToDays(era: int, yoe: int, mp: int, day: int)
    requires 0 <= yoe < 400 && 0 <= mp < 12
    ensures ToDays(Civil(era, yoe, mp, day))
         == era * 146_097 + YearStart(yoe) + MonthStart(mp) + day - 1 - 719_468
  {
    EraYear(era, yoe);
  }

  lemma FromDaysIs(z: int)
    ensures var era, doe := (z + 719_468) / 146_097, (z + 719_468) % 146_097;
            var doy := doe - YearStart(YearOf(doe));
            FromDays(z) == Civil(era, YearOf(doe), MonthOf(doy), doy - MonthStart(MonthOf(doy)) + 1)
  {}

  lemma MonthDay(era: int, yoe: int, doy: int)
    requires 0 <= yoe < 400 && 0 <= doy < YearEnd(yoe) - YearStart(yoe)
    ensures var mp := MonthOf(doy); 0 <= mp < 12 && Valid(Civil(era, yoe, mp, doy - MonthStart(mp) + 1))
  {
    YearLength(era, yoe);
    MonthOfContains(doy);
    MonthLength(era, yoe, MonthOf(doy));
  }

  lemma FromDaysParts(z: int) returns (era: int, yoe: int, mp: int, day: int)
    ensures 0 <= yoe < 400 && 0 <= mp < 12 && 1 <= day
    ensures FromDays(z) == Civil(era, yoe, mp, day) && Valid(FromDays(z))
    ensures z == era * 146_097 + YearStart(yoe) + MonthStart(mp) + day - 1 - 719_468
  {
    era := (z + 719_468) / 146_097;
    var doe := (z + 719_468) % 146_097;
    FromDaysIs(z);
    YearOfContains(doe);
    yoe := YearOf(doe);
    var start := YearStart(yoe);
    MonthDay(era, yoe, doe - start);
    mp := MonthOf(doe - start);
    var first := MonthStart(mp);
    day := doe - start - first + 1;
    assert z + 719_468 == era * 146_097 + doe;
  }

  // ---- Main results ----

  /** The result is always a date of the calendar, and the inverse formula recovers the day. */
  lemma FromDaysIsValid(z: int)
    ensures Valid(FromDays(z)) && ToDays(FromDays(z)) == z
  {
    var era, yoe, mp, day := FromDaysParts(z);
    CivilToDays(era, yoe, mp, day);
  }

  lemma EpochDay()
    ensures FromDays(0) == Date(1970, 1, 1)
  {
    assert ToDays(Date(1970, 1, 1)) == 0;
    ToDaysIsValid(Date(1970, 1, 1));
  }

  lemma DateParts(d: Date) returns (era: int, yoe: int, mp: int)
    requires Valid(d)
    ensures 0 <= yoe < 400 && 0 <= mp < 12 && d == Civil(era, yoe, mp, d.day)
  {
    var y := if d.month <= 2 then d.year - 1 else d.year;
    era, yoe := y / 400, y % 400;
    mp := if d.month > 2 then d.month - 3 else d.month + 9;
  }

  lemma SameMonth(era: int, yoe: int, mp: int, day: int)
    requires 0 <= yoe < 400 && 0 <= mp < 12
    ensures var d := Civil(era, yoe, mp, day);
            Valid(d) && day < DaysIn(d.year, d.month) ==>
              Valid(Successor(d)) && ToDays(Successor(d)) == ToDays(d) + 1
  {
    CivilToDays(era, yoe, mp, day);
    CivilToDays(era, yoe, mp, day + 1);
  }

  lemma NextMonth(era: int, yoe: int, mp: int)
    requires 0 <= yoe < 400 && 0 <= mp < 11
    ensures var d := Civil(era, yoe, mp, DaysIn(Civil(era, yoe, mp, 1).year, Civil(era, yoe, mp, 1).month));
            Valid(Successor(d)) && ToDays(Successor(d)) == ToDays(d) + 1
  {
    var last := DaysIn(Civil(era, yoe, mp, 1).year, Civil(era, yoe, mp, 1).month);
    MonthLength(era, yoe, mp);
    CivilToDays(era, yoe, mp, last);
    CivilToDays(era, yoe, mp + 1, 1);
    assert Successor(Civil(era, yoe, mp, last)) == Civil(era, yoe, mp + 1, 1);
  }

  lemma NextYear(era: int, yoe: int)
    requires 0 <= yoe < 400
    ensures var d := Civil(era, yoe, 11, DaysIn(era * 400 + yoe + 1, 2));
            Valid(Successor(d)) && ToDays(Successor(d)) == ToDays(d) + 1
  {
    var last := DaysIn(era * 400 + yoe + 1, 2);
    YearLength(era, yoe);
    CivilToDays(era, yoe, 11, last);
    var march := Civil(era, yoe + 1, 0, 1);
    assert Successor(Civil(era, yoe, 11, last)) == march;
    if yoe < 399 {
      CivilToDays(era, yoe + 1, 0, 1);
    } else {
      assert march == Civil(era + 1, 0, 0, 1);
      CivilToDays(era + 1, 0, 0, 1);
    }
  }

  /** The successor on the calendar is the next day number. */
  lemma SuccessorIsNext(d: Date)
    requires Valid(d)
    ensures Valid(Successor(d)) && ToDays(Successor(d)) == ToDays(d) + 1
  {
    var era, yoe, mp := DateParts(d);
    if d.day < DaysIn(d.year, d.month) {
      SameMonth(era, yoe, mp, d.day);
    } else if mp < 11 {
      NextMonth(era, yoe, mp);
    } else {
      NextYear(era, yoe);
    }
  }

  /** A later date has a larger day number. */
  lemma DaysFollowDates(a: Date, b: Date)
    requires Valid(a) && Valid(b) && Before(a, b)
    ensures ToDays(a) < ToDays(b)
  {
    var ea, ya, ma := DateParts(a);
    var eb, yb, mb := DateParts(b);
    CivilToDays(ea, ya, ma, a.day);
    CivilToDays(eb, yb, mb, b.day);
    MonthLength(ea, ya, ma);
    MonthLength(eb, yb, mb);
    YearLength(ea, ya);
    YearLength(eb, yb);
    MarchOrder(ea, ya, ma, a.day, eb, yb, mb, b.day);
  }

  lemma MarchOrder(ea: int, ya: int, ma: int, da: int, eb: int, yb: int, mb: int, db: int)
    requires 0 <= ya < 400 && 0 <= ma < 12 && 0 <= yb < 400 && 0 <= mb < 12
    requires Valid(Civil(ea, ya, ma, da)) && Valid(Civil(eb, yb, mb, db))
    requires Before(Civil(ea, ya, ma, da), Civil(eb, yb, mb, db))
    ensures ea * 146_097 + YearStart(ya) + MonthStart(ma) + da < eb * 146_097 + YearStart(yb) + MonthStart(mb) + db
  {
    MonthLength(ea, ya, ma);
    YearLength(ea, ya);
    assert ea < eb || (ea == eb && (ya < yb || (ya == yb && (ma < mb || (ma == mb && da < db)))));
  }

  /** `FromDays` and `ToDays` are inverse on the dates of the calendar. */
  lemma ToDaysIsValid(d: Date)
    requires Valid(d)
    ensures FromDays(ToDays(d)) == d
  {
    var e := FromDays(ToDays(d));
    FromDaysIsValid(ToDays(d));
    if Before(d, e) {
      DaysFollowDates(d, e);
    } else if Before(e, d) {
      DaysFollowDates(e, d);
    }
  }

  /** Day `z + 1` is the calendar successor of day `z`. */
  lemma NextDay(z: int)
    ensures FromDays(z + 1) == Successor(FromDays(z))
  {
    FromDaysIsValid(z);
    SuccessorIsNext(FromDays(z));
    ToDaysIsValid(Successor(FromDays(z)));
  }

  // ---- Timestamps ----

  /** The fields of an RFC 3339 timestamp in UTC. */
  datatype Stamp = Stamp(date: Date, hour: int, minute: int, second: int, nanos: int)

  /** `ts_to_rfc3339` before formatting. */
  function ToStamp(tsNs: nat): Stamp {
    var secs, nanos := tsNs / 1_000_000_000, tsNs % 1_000_000_000;
    var rem := secs % 86_400;
    Stamp(FromDays(secs / 86_400), rem / 3600, (rem % 3600) / 60, rem % 60, nanos)
  }

  /** The fields are in range and name exactly this instant. */
  lemma StampIsExact(tsNs: nat)
    ensures var s := ToStamp(tsNs);
            && Valid(s.date) && 0 <= s.hour < 24 && 0 <= s.minute < 60 && 0 <= s.second < 60
            && 0 <= s.nanos < 1_000_000_000
            && tsNs == (((ToDays(s.date) * 24 + s.hour) * 60 + s.minute) * 60 + s.second) * 1_000_000_000 + s.nanos
  {
    var secs := tsNs / 1_000_000_000;
    FromDaysIsValid(secs / 86_400);
    SplitOfDay(secs);
    Recombine(tsNs, ToDays(ToStamp(tsNs).date), secs);
  }

  lemma SplitOfDay(secs: nat)
    ensures var rem := secs % 86_400;
            && 0 <= rem / 3600 < 24 && 0 <= (rem % 3600) / 60 < 60
            && secs == (((secs / 86_400) * 24 + rem / 3600) * 60 + (rem % 3600) / 60) * 60 + rem % 60
  {
    var rem := secs % 86_400;
    var h, x := rem / 3600, rem % 3600;
    assert rem == 3600 * h + x && rem % 60 == x % 60;
  }

  lemma Recombine(tsNs: nat, days: int, secs: nat)
    requires secs == tsNs / 1_000_000_000 && days == secs / 86_400
    ensures var rem := secs % 86_400;
            tsNs == (((days * 24 + rem / 3600) * 60 + (rem % 3600) / 60) * 60 + rem % 60) * 1_000_000_000
                    + tsNs % 1_000_000_000
  {
    SplitOfDay(secs);
  }
}
