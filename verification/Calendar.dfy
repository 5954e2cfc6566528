/**
 Calendar arithmetic and the RFC 3339 timestamp parser (src/reasoning/incident.rs). Every accepted
 byte is ASCII, so text positions and byte positions agree on every accepted value.
 */
module Calendar {
  import opened Outcomes
  import opened Decimal

  const EPOCH_INDEX: int := 719528
  const DAY_MS: int := 86_400_000

  datatype Date = Date(year: int, month: int, day: int)

  predicate Leap(year: int) {
    (year % 4 == 0 && year % 100 != 0) || year % 400 == 0
  }

  function MonthLength(year: int, month: int): int {
    if month == 2 then 28 + (if Leap(year) then 1 else 0)
    else if month == 4 || month == 6 || month == 9 || month == 11 then 30
    else 31
  }

  predicate Valid(d: Date) {
    1 <= d.month <= 12 && 1 <= d.day <= MonthLength(d.year, d.month)
  }

  /** `days_from_civil`: days since 1970-01-01, by 400-year eras of March-based years. */
  function DaysFromCivil(year: int, month: int, day: int): Option<int> {
    if month < 1 || month > 12 || day > MonthLength(year, month) then None
    else Some(EraDays(if month <= 2 then year - 1 else year) + DayOfYear(month, day) - 719_468)
  }

  /** Days before 1 March of the year, from 1 March of year 0. */
  function EraDays(adjusted: int): int {
    var era := adjusted / 400;
    var yearOfEra := adjusted - era * 400;
    era * 146_097 + (yearOfEra * 365 + yearOfEra / 4 - yearOfEra / 100)
  }

  function DayOfYear(month: int, day: int): int {
    (153 * (month + if month > 2 then -3 else 9) + 2) / 5 + day - 1
  }

  function DayNumber(d: Date): int
    requires Valid(d)
  {
    DaysFromCivil(d.year, d.month, d.day).value
  }

  function NextDay(d: Date): Date
    requires Valid(d)
  {
    if d.day < MonthLength(d.year, d.month) then Date(d.year, d.month, d.day + 1)
    else if d.month < 12 then Date(d.year, d.month + 1, 1)
    else Date(d.year + 1, 1, 1)
  }

  /** A date counts if and only if its month is one of twelve and its day does not go beyond it. */
  lemma CivilExactly(year: int, month: int, day: int)
    ensures DaysFromCivil(year, month, day).Some? <==>
              || (month in {1, 3, 5, 7, 8, 10, 12} && day <= 31) || (month in {4, 6, 9, 11} && day <= 30)
              || (month == 2 && day <= if (year % 4 == 0 && year % 100 != 0) || year % 400 == 0 then 29 else 28)
  {
  }

  lemma EraDaysAt(era: int, yearOfEra: int)
    requires 0 <= yearOfEra < 400
    ensures EraDays(400 * era + yearOfEra) == era * 146_097 + (yearOfEra * 365 + yearOfEra / 4 - yearOfEra / 100)
  {
    assert (400 * era + yearOfEra) / 400 == era;
  }

  lemma LeapAt(era: int, yearOfEra: int)
    requires 0 <= yearOfEra < 400
    ensures Leap(400 * era + yearOfEra) <==> yearOfEra == 0 || (yearOfEra % 4 == 0 && yearOfEra % 100 != 0)
  {
    var year := 400 * era + yearOfEra;
    assert year % 400 == yearOfEra;
    assert year % 100 == yearOfEra % 100 by { assert year == 100 * (4 * era + yearOfEra / 100) + yearOfEra % 100; }
    assert year % 4 == yearOfEra % 4 by { assert year == 4 * (100 * era + yearOfEra / 4) + yearOfEra % 4; }
  }

  lemma LeapDayCount(y: int)
    requires 0 < y < 400
    ensures y / 4 - y / 100 == (y - 1) / 4 - (y - 1) / 100 + if y % 4 == 0 && y % 100 != 0 then 1 else 0
  {
    assert y / 4 == (y - 1) / 4 + if y % 4 == 0 then 1 else 0;
    assert y / 100 == (y - 1) / 100 + if y % 100 == 0 then 1 else 0;
  }

  /** One March-based year is as long as its February is. */
  lemma EraDaysStep(year: int)
    ensures EraDays(year) == EraDays(year - 1) + 365 + if Leap(year) then 1 else 0
  {
    var e, y := year / 400, year % 400;
    assert year == 400 * e + y;
    LeapAt(e, y);
    EraDaysAt(e, y);
    if y == 0 {
      assert year - 1 == 400 * (e - 1) + 399;
      EraDaysAt(e - 1, 399);
    } else {
      assert year - 1 == 400 * e + (y - 1);
      EraDaysAt(e, y - 1);
      LeapDayCount(y);
    }
  }

  /** Consecutive days of one March-based year; the month table is exact at every month's end. */
  lemma DayOfYearStep(d: Date)
    requires Valid(d) && !(d.month == 2 && d.day == MonthLength(d.year, 2))
    ensures DayOfYear(NextDay(d).month, NextDay(d).day) == DayOfYear(d.month, d.day) + 1
  {
    var m := d.month;
    if m == 1 || m == 2 || m == 3 || m == 4 {
    } else if m == 5 || m == 6 || m == 7 || m == 8 {
    } else {
      assert m == 9 || m == 10 || m == 11 || m == 12;
    }
  }

  /** Each next day is one day later: across months, years, leap days, centuries and eras. */
  lemma NextDayIsOneLater(d: Date)
    requires Valid(d)
    ensures Valid(NextDay(d)) && DayNumber(NextDay(d)) == DayNumber(d) + 1
  {
    if d.month == 2 && d.day == MonthLength(d.year, 2) {
      EraDaysStep(d.year);
      assert NextDay(d) == Date(d.year, 3, 1) && DayOfYear(3, 1) == 0;
      assert DayOfYear(2, d.day) == 336 + d.day;
    } else {
      DayOfYearStep(d);
      var n := NextDay(d);
      assert (if n.month <= 2 then n.year - 1 else n.year) == (if d.month <= 2 then d.year - 1 else d.year);
    }
  }

  lemma EpochIsZero()
    ensures DaysFromCivil(1970, 1, 1) == Some(0)
    ensures DaysFromCivil(0, 1, 1) == Some(-EPOCH_INDEX)
  {
  }

  /** The k-th day counted from 0000-01-01. */
  function CivilOn(k: nat): (d: Date)
    ensures Valid(d) && d.year >= 0
  {
    if k == 0 then Date(0, 1, 1) else NextDay(CivilOn(k - 1))
  }

  lemma {:induction false} CivilOnCounts(k: nat)
    ensures DayNumber(CivilOn(k)) == k - EPOCH_INDEX
  {
    if k == 0 {
      EpochIsZero();
    } else {
      CivilOnCounts(k - 1);
      NextDayIsOneLater(CivilOn(k - 1));
    }
  }

  function PreviousDay(d: Date): (p: Date)
    requires Valid(d) && d.year >= 0 && d != Date(0, 1, 1)
    ensures Valid(p) && p.year >= 0 && NextDay(p) == d
  {
    if d.day > 1 then Date(d.year, d.month, d.day - 1)
    else if d.month > 1 then Date(d.year, d.month - 1, MonthLength(d.year, d.month - 1))
    else Date(d.year - 1, 12, 31)
  }

  /** Every valid date is reached by counting days; its index is its day number. */
  lemma {:induction false} EveryDateCounted(d: Date)
    requires Valid(d) && d.year >= 0
    ensures var n := DayNumber(d) + EPOCH_INDEX; n >= 0 && CivilOn(n) == d
    decreases d.year, d.month, d.day
  {
    hide DaysFromCivil, MonthLength, NextDay;
    if d == Date(0, 1, 1) {
      EpochIsZero();
    } else {
      EveryDateCounted(PreviousDay(d));
      NextDayIsOneLater(PreviousDay(d));
    }
  }

  predicate Earlier(p: Date, q: Date) {
    p.year < q.year || (p.year == q.year && (p.month < q.month || (p.month == q.month && p.day < q.day)))
  }

  lemma {:induction false} CountingKeepsOrder(k: nat, n: nat)
    requires k < n
    ensures Earlier(CivilOn(k), CivilOn(n))
    decreases n
  {
    if k < n - 1 { CountingKeepsOrder(k, n - 1); }
  }

  /** Day numbers order dates exactly as the calendar does, so no two dates share one. */
  lemma DaysKeepOrder(p: Date, q: Date)
    requires Valid(p) && p.year >= 0 && Valid(q) && q.year >= 0
    ensures Earlier(p, q) <==> DayNumber(p) < DayNumber(q)
    ensures DayNumber(p) == DayNumber(q) ==> p == q
  {
    EveryDateCounted(p);
    EveryDateCounted(q);
    var k, n := DayNumber(p) + EPOCH_INDEX, DayNumber(q) + EPOCH_INDEX;
    if k < n {
      CountingKeepsOrder(k, n);
    } else if n < k {
      CountingKeepsOrder(n, k);
    }
  }

  // ---- Timestamps (section 5.6 of RFC 3339) ----

  function Digits(s: string, start: nat, length: nat): Option<nat> {
    if start + length <= |s| && AllDigits(s[start..start + length]) then Some(Value(s[start..start + length])) else None
  }

  /** Milliseconds a fraction denotes: its first three digits, padded with zeros. */
  function Millis(fraction: string): nat
    requires AllDigits(fraction)
  {
    Value((fraction + "00" + "0")[..3])
  }

  /** The zone suffix from position `i`: "Z", or a signed hour and minute; in minutes east of UTC. */
  function OffsetMinutes(s: string, i: nat): Option<int>
    requires i <= |s|
  {
    if i + 1 == |s| && s[i] == 'Z' then Some(0)
    else if i + 6 == |s| && (s[i] == '+' || s[i] == '-') && s[i + 3] == ':' then
      var hours := Digits(s, i + 1, 2);
      var minutes := Digits(s, i + 4, 2);
      if hours.None? || minutes.None? || hours.value > 23 || minutes.value > 59 then None
      else Some((if s[i] == '+' then 1 else -1) * (hours.value * 60 + minutes.value))
    else None
  }

  /** The date, the time of day in seconds and where they end; range checks as the parser makes them. */
  function LocalSeconds(s: string): Option<int> {
    if |s| < 20 || s[4] != '-' || s[7] != '-' || s[10] != 'T' || s[13] != ':' || s[16] != ':' then None else
    var year, month, day := Digits(s, 0, 4), Digits(s, 5, 2), Digits(s, 8, 2);
    var hour, minute, second := Digits(s, 11, 2), Digits(s, 14, 2), Digits(s, 17, 2);
    if year.None? || month.None? || day.None? || hour.None? || minute.None? || second.None? then None
    else if !(1 <= month.value <= 12) || !(1 <= day.value <= 31) || hour.value > 23 || minute.value > 59 || second.value > 59 then None
    else
      var days := DaysFromCivil(year.value, month.value, day.value);
      if days.None? then None
      else Some(days.value * 86_400 + hour.value * 3_600 + minute.value * 60 + second.value)
  }

  /** `parse_rfc3339_millis`: UTC milliseconds since the epoch, or nothing. */
  function ParseMillis(s: string): Option<int> {
    var local := LocalSeconds(s);
    if local.None? then None else
    var index := if s[19] == '.' then DigitsEnd(s, 20) else 19;
    if s[19] == '.' && index == 20 then None else
    var offset := OffsetMinutes(s, index);
    if offset.None? then None
    else Some((local.value - offset.value * 60) * 1_000 + if s[19] == '.' then Millis(s[20..index]) else 0)
  }

  /** Scans a fraction: the index advances over its digits, at most three of them are kept. */
  method ScanFraction(s: string) returns (index: nat, millis: nat)
    requires |s| >= 20
    ensures index == DigitsEnd(s, 20) && millis == Millis(s[20..index])
  {
    index := 20;
    while index < |s| && IsDigit(s[index])
      invariant 20 <= index <= |s| && AllDigits(s[20..index])
      invariant DigitsEnd(s, index) == DigitsEnd(s, 20)
    {
      assert s[20..index + 1] == s[20..index] + [s[index]];
      index := index + 1;
    }
    var kept := s[20..index];
    if |kept| > 3 { kept := kept[..3]; }
    while |kept| < 3
      invariant |kept| <= 3 && kept == (s[20..index] + "00" + "0")[..|kept|]
    {
      kept := kept + "0";
    }
    millis := Value(kept);
  }

  /** The parser in the order it checks. */
  method ParseRfc3339Millis(s: string) returns (r: Option<int>)
    ensures r == ParseMillis(s)
  {
    if |s| < 20 || s[4] != '-' || s[7] != '-' || s[10] != 'T' || s[13] != ':' || s[16] != ':' { return None; }
    var year, month, day := Digits(s, 0, 4), Digits(s, 5, 2), Digits(s, 8, 2);
    var hour, minute, second := Digits(s, 11, 2), Digits(s, 14, 2), Digits(s, 17, 2);
    if year.None? || month.None? || day.None? || hour.None? || minute.None? || second.None? { return None; }
    if !(1 <= month.value <= 12) || !(1 <= day.value <= 31) || hour.value > 23 || minute.value > 59 || second.value > 59 {
      return None;
    }
    var index, millis := 19, 0;
    if s[19] == '.' {
      index, millis := ScanFraction(s);
      if index == 20 { return None; }
    }
    var offset := OffsetMinutes(s, index);
    if offset.None? { return None; }
    var days := DaysFromCivil(year.value, month.value, day.value);
    if days.None? { return None; }
    return Some((days.value * 86_400 + hour.value * 3_600 + minute.value * 60 + second.value - offset.value * 60) * 1_000 + millis);
  }

  datatype Zone = Zulu | Numeric(west: bool, hours: nat, minutes: nat)

  predicate ValidZone(z: Zone) {
    z.Numeric? ==> z.hours <= 23 && z.minutes <= 59
  }

  function ZoneMinutes(z: Zone): int {
    match z
    case Zulu => 0
    case Numeric(west, hours, minutes) => (if west then -1 else 1) * (hours * 60 + minutes)
  }

  function Pad2(n: nat): string
    requires n < 100
  {
    [DigitChar(n / 10), DigitChar(n % 10)]
  }

  function Pad3(n: nat): string
    requires n < 1000
  {
    [DigitChar(n / 100), DigitChar(n / 10 % 10), DigitChar(n % 10)]
  }

  function Pad4(n: nat): string
    requires n < 10_000
  {
    Pad2(n / 100) + Pad2(n % 100)
  }

  function PrintZone(z: Zone): string
    requires ValidZone(z)
  {
    match z
    case Zulu => "Z"
    case Numeric(west, hours, minutes) => [if west then '-' else '+'] + Pad2(hours) + ":" + Pad2(minutes)
  }

  /** The local calendar day index of an instant seen in a zone. */
  function LocalDay(ms: int, z: Zone): int {
    (ms + ZoneMinutes(z) * 60_000) / DAY_MS + EPOCH_INDEX
  }

  /** The zone's local year is one a four-digit timestamp can carry. */
  predicate Printable(ms: int, z: Zone) {
    ValidZone(z) && LocalDay(ms, z) >= 0 && CivilOn(LocalDay(ms, z)).year <= 9999
  }

  function PrintDate(d: Date): (s: string)
    requires Valid(d) && 0 <= d.year <= 9999
    ensures |s| == 10
  {
    Pad4(d.year) + "-" + Pad2(d.month) + "-" + Pad2(d.day)
  }

  function PrintTime(ms: nat): (s: string)
    requires ms < DAY_MS
    ensures |s| == 8
  {
    Pad2(ms / 3_600_000) + ":" + Pad2(ms / 60_000 % 60) + ":" + Pad2(ms / 1_000 % 60)
  }

  /** An instant printed in a zone with millisecond precision and any further fraction digits. */
  function PrintInstant(ms: int, z: Zone, finer: string): string
    requires Printable(ms, z)
  {
    var local := ms + ZoneMinutes(z) * 60_000;
    PrintDate(CivilOn(LocalDay(ms, z))) + "T" + PrintTime(local % DAY_MS) + "." + Pad3(local % 1_000) + finer + PrintZone(z)
  }

  lemma Pad2Value(n: nat)
    requires n < 100
    ensures AllDigits(Pad2(n)) && Value(Pad2(n)) == n
  {
    ValueOfTwo(n / 10, n % 10);
  }

  lemma Pad3Value(n: nat)
    requires n < 1_000
    ensures AllDigits(Pad3(n)) && Value(Pad3(n)) == n
  {
    var head := [DigitChar(n / 100), DigitChar(n / 10 % 10)];
    ValueOfTwo(n / 100, n / 10 % 10);
    ValueAppend(head, n % 10);
    assert Pad3(n) == head + [DigitChar(n % 10)];
  }

  lemma Pad4Value(n: nat)
    requires n < 10_000
    ensures |Pad4(n)| == 4 && AllDigits(Pad4(n)) && Value(Pad4(n)) == n
  {
    var h, l := n / 100, n % 100;
    Pad2Value(h);
    ValueAppend(Pad2(h), l / 10);
    ValueAppend(Pad2(h) + [DigitChar(l / 10)], l % 10);
    assert Pad4(n) == Pad2(h) + [DigitChar(l / 10)] + [DigitChar(l % 10)];
  }

  lemma ValueAppend(s: string, d: nat)
    requires AllDigits(s) && d < 10
    ensures AllDigits(s + [DigitChar(d)]) && Value(s + [DigitChar(d)]) == 10 * Value(s) + d
  {
    assert (s + [DigitChar(d)])[..|s|] == s;
  }

  lemma ValueOfTwo(a: nat, b: nat)
    requires a < 10 && b < 10
    ensures Value([DigitChar(a), DigitChar(b)]) == 10 * a + b
  {
    var s := [DigitChar(a), DigitChar(b)];
    assert s[..1] == [DigitChar(a)] && [DigitChar(a)][..0] == "";
    assert Value([DigitChar(a)]) == a;
  }

  lemma PrintedDateFields(d: Date, rest: string)
    requires Valid(d) && 0 <= d.year <= 9999
    ensures var t := PrintDate(d) + rest;
            && |PrintDate(d)| == 10 && t[4] == '-' && t[7] == '-'
            && Digits(t, 0, 4) == Some(d.year) && Digits(t, 5, 2) == Some(d.month) && Digits(t, 8, 2) == Some(d.day)
  {
    var t := PrintDate(d) + rest;
    Pad4Value(d.year);
    Pad2Value(d.month);
    Pad2Value(d.day);
    assert t[0..4] == Pad4(d.year) && t[5..7] == Pad2(d.month) && t[8..10] == Pad2(d.day);
  }

  lemma PrintedTimeFields(before: string, ms: nat, rest: string)
    requires |before| == 11 && ms < DAY_MS
    ensures var t := before + PrintTime(ms) + rest;
            && |PrintTime(ms)| == 8 && t[13] == ':' && t[16] == ':'
            && Digits(t, 11, 2) == Some(ms / 3_600_000) && Digits(t, 14, 2) == Some(ms / 60_000 % 60)
            && Digits(t, 17, 2) == Some(ms / 1_000 % 60)
  {
    var t := before + PrintTime(ms) + rest;
    Pad2Value(ms / 3_600_000);
    Pad2Value(ms / 60_000 % 60);
    Pad2Value(ms / 1_000 % 60);
    assert t[11..13] == Pad2(ms / 3_600_000) && t[14..16] == Pad2(ms / 60_000 % 60) && t[17..19] == Pad2(ms / 1_000 % 60);
  }

  lemma TimeSplits(ms: nat)
    requires ms < DAY_MS
    ensures ms / 3_600_000 <= 23
    ensures ms / 3_600_000 * 3_600 + ms / 60_000 % 60 * 60 + ms / 1_000 % 60 == ms / 1_000
  {
    assert ms / 60_000 == ms / 3_600_000 * 60 + ms / 60_000 % 60;
    assert ms / 1_000 == ms / 60_000 * 60 + ms / 1_000 % 60;
  }

  lemma LocalSecondsOfPrinted(d: Date, ms: nat, rest: string)
    requires Valid(d) && 0 <= d.year <= 9999 && ms < DAY_MS && rest != ""
    ensures LocalSeconds(PrintDate(d) + "T" + PrintTime(ms) + rest) == Some(DayNumber(d) * 86_400 + ms / 1_000)
  {
    var t := PrintDate(d) + "T" + PrintTime(ms) + rest;
    PrintedDateFields(d, "T" + PrintTime(ms) + rest);
    assert t == PrintDate(d) + ("T" + PrintTime(ms) + rest);
    PrintedTimeFields(PrintDate(d) + "T", ms, rest);
    TimeSplits(ms);
    assert t[10] == 'T';
    assert d.day <= 31;
  }

  lemma OffsetOfPrinted(before: string, z: Zone)
    requires ValidZone(z)
    ensures OffsetMinutes(before + PrintZone(z), |before|) == Some(ZoneMinutes(z))
  {
    var s, i := before + PrintZone(z), |before|;
    match z
    case Zulu =>
    case Numeric(_, hours, minutes) =>
      Pad2Value(hours);
      Pad2Value(minutes);
      assert s[i + 1..i + 3] == Pad2(hours) && s[i + 4..i + 6] == Pad2(minutes);
  }

  /** Splitting a local instant into its day, its second and its millisecond loses nothing. */
  lemma InstantSplits(local: int, offset: int)
    ensures ((local / DAY_MS) * 86_400 + (local % DAY_MS) / 1_000 - offset * 60) * 1_000 + local % 1_000
            == local - offset * 60_000
  {
    var day, rest := local / DAY_MS, local % DAY_MS;
    var q, r := rest / 1_000, rest % 1_000;
    assert local == 1_000 * (day * 86_400 + q) + r;
    RemainderUnique(local, day * 86_400 + q, r);
  }

  lemma InstantReassembled(ms: int, offset: int, day: int)
    requires day == (ms + offset * 60_000) / DAY_MS
    ensures (day * 86_400 + ((ms + offset * 60_000) % DAY_MS) / 1_000 - offset * 60) * 1_000 + (ms + offset * 60_000) % 1_000 == ms
  {
    InstantSplits(ms + offset * 60_000, offset);
  }

  lemma RemainderUnique(n: int, q: int, r: int)
    requires n == 1_000 * q + r && 0 <= r < 1_000
    ensures n % 1_000 == r
  {
  }

  lemma ParseAssembles(s: string, local: int, e: nat, offset: int)
    requires LocalSeconds(s) == Some(local) && s[19] == '.' && DigitsEnd(s, 20) == e && e > 20
    requires OffsetMinutes(s, e) == Some(offset)
    ensures ParseMillis(s) == Some((local - offset * 60) * 1_000 + Millis(s[20..e]))
  {
  }

  lemma FractionAndZoneRead(head: string, m: nat, finer: string, z: Zone, local: int)
    requires |head| == 19 && m < 1_000 && AllDigits(finer) && ValidZone(z)
    requires LocalSeconds(head + "." + Pad3(m) + finer + PrintZone(z)) == Some(local)
    ensures ParseMillis(head + "." + Pad3(m) + finer + PrintZone(z)) == Some((local - ZoneMinutes(z) * 60) * 1_000 + m)
  {
    var s := head + "." + Pad3(m) + finer + PrintZone(z);
    var fraction := Pad3(m) + finer;
    var e := 20 + |fraction|;
    Pad3Value(m);
    assert s[20..e] == fraction;
    DigitsEndAt(s, 20, e);
    assert s[..e] + PrintZone(z) == s;
    OffsetOfPrinted(s[..e], z);
    assert (fraction + "00" + "0")[..3] == Pad3(m);
    ParseAssembles(s, local, e, ZoneMinutes(z));
  }

  lemma PrintedLocalRead(d: Date, tod: nat, m: nat, finer: string, z: Zone)
    requires Valid(d) && 0 <= d.year <= 9999 && tod < DAY_MS && m < 1_000 && AllDigits(finer) && ValidZone(z)
    ensures ParseMillis(PrintDate(d) + "T" + PrintTime(tod) + "." + Pad3(m) + finer + PrintZone(z))
            == Some((DayNumber(d) * 86_400 + tod / 1_000 - ZoneMinutes(z) * 60) * 1_000 + m)
  {
    hide ParseMillis, LocalSeconds, DaysFromCivil, PrintDate, PrintTime, PrintZone, Pad3;
    var head := PrintDate(d) + "T" + PrintTime(tod);
    var rest := "." + Pad3(m) + finer + PrintZone(z);
    LocalSecondsOfPrinted(d, tod, rest);
    assert head + "." + Pad3(m) + finer + PrintZone(z) == head + rest;
    FractionAndZoneRead(head, m, finer, z, DayNumber(d) * 86_400 + tod / 1_000);
  }

  /**
   Round trip: an instant printed in any zone up to 23:59 either way whose local year has four
   digits parses back to that instant; digits finer than a millisecond are dropped.
   */
  lemma ParsePrintedInstant(ms: int, z: Zone, finer: string)
    requires Printable(ms, z) && AllDigits(finer)
    ensures ParseMillis(PrintInstant(ms, z, finer)) == Some(ms)
  {
    hide ParseMillis, DaysFromCivil, PrintDate, PrintTime, PrintZone, Pad3;
    var local := ms + ZoneMinutes(z) * 60_000;
    var d := CivilOn(LocalDay(ms, z));
    assert PrintInstant(ms, z, finer)
           == PrintDate(d) + "T" + PrintTime(local % DAY_MS) + "." + Pad3(local % 1_000) + finer + PrintZone(z);
    PrintedLocalRead(d, local % DAY_MS, local % 1_000, finer, z);
    CivilOnCounts(LocalDay(ms, z));
    InstantReassembled(ms, ZoneMinutes(z), DayNumber(d));
  }

  lemma EpochDayPrints()
    ensures CivilOn(EPOCH_INDEX) == Date(1970, 1, 1) && PrintDate(Date(1970, 1, 1)) == "1970-01-01"
  {
    hide CivilOn;
    EpochIsZero();
    EveryDateCounted(Date(1970, 1, 1));
    assert Pad4(1970) == "1970" && Pad2(1) == "01";
  }

  /** Instants of the epoch's own day. */
  lemma FirstDayPrints(ms: nat)
    requires ms < DAY_MS
    ensures Printable(ms, Zulu)
    ensures PrintInstant(ms, Zulu, "") == "1970-01-01" + "T" + PrintTime(ms) + "." + Pad3(ms % 1_000) + "Z"
  {
    hide CivilOn, PrintDate, PrintTime, Pad3;
    EpochDayPrints();
    assert LocalDay(ms, Zulu) == EPOCH_INDEX;
    assert "." + Pad3(ms % 1_000) + "" == "." + Pad3(ms % 1_000);
  }

  lemma EpochReads()
    ensures ParseMillis("1970-01-01T00:00:00.000Z") == Some(0)
  {
    hide ParseMillis, PrintInstant, PrintDate, CivilOn;
    FirstDayPrints(0);
    ParsePrintedInstant(0, Zulu, "");
    assert PrintTime(0) == "00:00:00" && Pad3(0) == "000";
    assert "1970-01-01" + "T" + "00:00:00" + "." + "000" + "Z" == "1970-01-01T00:00:00.000Z";
  }

  lemma SecondLaterReads()
    ensures ParseMillis("1970-01-01T00:00:01.000Z") == Some(1_000)
  {
    hide ParseMillis, PrintInstant, PrintDate, CivilOn;
    FirstDayPrints(1_000);
    ParsePrintedInstant(1_000, Zulu, "");
    assert PrintTime(1_000) == "00:00:01" && Pad3(0) == "000";
    assert "1970-01-01" + "T" + "00:00:01" + "." + "000" + "Z" == "1970-01-01T00:00:01.000Z";
  }

  /** Two instants never print alike, whatever their zones. */
  lemma PrintedInstantsDistinct(m1: int, z1: Zone, m2: int, z2: Zone)
    requires Printable(m1, z1) && Printable(m2, z2) && PrintInstant(m1, z1, "") == PrintInstant(m2, z2, "")
    ensures m1 == m2
  {
    ParsePrintedInstant(m1, z1, "");
    ParsePrintedInstant(m2, z2, "");
  }

  // ---- Exactly which texts are timestamps ----

  lemma DigitOfValue(c: char)
    requires IsDigit(c)
    ensures DigitChar(DigitValue(c)) == c
  {
  }

  lemma TwoDigits(s: string, i: nat)
    requires Digits(s, i, 2).Some?
    ensures var v := Digits(s, i, 2).value; v < 100 && s[i..i + 2] == Pad2(v)
  {
    var t := s[i..i + 2];
    DigitOfValue(t[0]);
    DigitOfValue(t[1]);
    ValueOfTwo(DigitValue(t[0]), DigitValue(t[1]));
    assert t == [t[0], t[1]];
  }

  lemma FourDigits(s: string, i: nat)
    requires Digits(s, i, 4).Some?
    ensures var v := Digits(s, i, 4).value; v < 10_000 && s[i..i + 4] == Pad4(v)
  {
    var t := s[i..i + 4];
    var high := t[..2];
    assert t[0..2] == high && t == high + [t[2]] + [t[3]];
    TwoDigits(t, 0);
    DigitOfValue(t[2]);
    DigitOfValue(t[3]);
    ValueAppend(high, DigitValue(t[2]));
    ValueAppend(high + [t[2]], DigitValue(t[3]));
    var v := Value(t);
    assert v == 100 * Value(high) + (10 * DigitValue(t[2]) + DigitValue(t[3]));
    QuotientIs(v, Value(high), 10 * DigitValue(t[2]) + DigitValue(t[3]), 100);
    assert Pad2(v % 100) == [t[2], t[3]];
  }

  lemma QuotientIs(n: int, q: int, r: int, m: int)
    requires 0 <= r < m && n == m * q + r
    ensures n / m == q && n % m == r
  {
    var k := q - n / m;
    Distributes(m, q, n / m);
    assert m * k == n % m - r;
    SmallMultiple(m, k);
  }

  lemma Distributes(m: int, a: int, b: int)
    ensures m * (a - b) == m * a - m * b
  {
  }

  lemma SmallMultiple(m: int, k: int)
    requires -m < m * k < m
    ensures k == 0
  {
    if k >= 1 { MultipleGrows(m, k); }
    if k <= -1 { MultipleGrows(m, -k); }
  }

  lemma MultipleGrows(m: int, k: int)
    requires m >= 0 && k >= 1
    ensures m * k >= m
  {
  }

  /** Hour, minute and second as one number, and their printed form. */
  lemma TimeOf(h: nat, m: nat, sec: nat)
    requires h <= 23 && m <= 59 && sec <= 59
    ensures var t := h * 3_600 + m * 60 + sec;
            t < 86_400 && PrintTime(t * 1_000) == Pad2(h) + ":" + Pad2(m) + ":" + Pad2(sec)
  {
    var ms := (h * 3_600 + m * 60 + sec) * 1_000;
    QuotientIs(ms, h, (m * 60 + sec) * 1_000, 3_600_000);
    QuotientIs(ms, h * 60 + m, sec * 1_000, 60_000);
    QuotientIs(h * 60 + m, h, m, 60);
    QuotientIs(ms, h * 3_600 + m * 60 + sec, 0, 1_000);
    QuotientIs(h * 3_600 + m * 60 + sec, h * 60 + m, sec, 60);
  }

  lemma LocalRead(s: string) returns (d: Date, t: nat)
    requires LocalSeconds(s).Some?
    ensures Valid(d) && 0 <= d.year <= 9999 && t < 86_400 && |s| >= 20
    ensures s[..19] == PrintDate(d) + "T" + PrintTime(t * 1_000) && LocalSeconds(s) == Some(DayNumber(d) * 86_400 + t)
  {
    hide *;
    FieldsRead(s);
    FieldsInRange(s);
    var h, m, sec := Digits(s, 11, 2).value, Digits(s, 14, 2).value, Digits(s, 17, 2).value;
    d := Date(Digits(s, 0, 4).value, Digits(s, 5, 2).value, Digits(s, 8, 2).value);
    t := h * 3_600 + m * 60 + sec;
    TimeOf(h, m, sec);
    FieldsJoin(s, Pad4(d.year), Pad2(d.month), Pad2(d.day), Pad2(h), Pad2(m), Pad2(sec));
    DateIs(d);
  }

  lemma DateIs(d: Date)
    requires Valid(d) && 0 <= d.year <= 9999
    ensures PrintDate(d) == Pad4(d.year) + "-" + Pad2(d.month) + "-" + Pad2(d.day)
  {
  }

  lemma FieldsInRange(s: string)
    requires LocalSeconds(s).Some?
    ensures |s| >= 20 && s[4] == '-' && s[7] == '-' && s[10] == 'T' && s[13] == ':' && s[16] == ':'
    ensures Digits(s, 0, 4).Some? && Digits(s, 5, 2).Some? && Digits(s, 8, 2).Some?
    ensures Digits(s, 11, 2).Some? && Digits(s, 14, 2).Some? && Digits(s, 17, 2).Some?
    ensures var d := Date(Digits(s, 0, 4).value, Digits(s, 5, 2).value, Digits(s, 8, 2).value);
            var h, m, sec := Digits(s, 11, 2).value, Digits(s, 14, 2).value, Digits(s, 17, 2).value;
            && Valid(d) && h <= 23 && m <= 59 && sec <= 59
            && LocalSeconds(s) == Some(DayNumber(d) * 86_400 + (h * 3_600 + m * 60 + sec))
  {
    hide Digits;
  }

  lemma FieldsRead(s: string)
    requires LocalSeconds(s).Some?
    ensures var year, month, day := Digits(s, 0, 4).value, Digits(s, 5, 2).value, Digits(s, 8, 2).value;
            var h, m, sec := Digits(s, 11, 2).value, Digits(s, 14, 2).value, Digits(s, 17, 2).value;
            && year < 10_000 && month < 100 && day < 100 && h < 100 && m < 100 && sec < 100
            && s[0..4] == Pad4(year) && s[5..7] == Pad2(month) && s[8..10] == Pad2(day)
            && s[11..13] == Pad2(h) && s[14..16] == Pad2(m) && s[17..19] == Pad2(sec)
  {
    hide Digits, DaysFromCivil, Pad4, Pad2;
    FourDigits(s, 0);
    TwoDigits(s, 5);
    TwoDigits(s, 8);
    TwoDigits(s, 11);
    TwoDigits(s, 14);
    TwoDigits(s, 17);
  }

  lemma FieldsJoin(s: string, year: string, month: string, day: string, h: string, m: string, sec: string)
    requires |s| >= 19 && s[4] == '-' && s[7] == '-' && s[10] == 'T' && s[13] == ':' && s[16] == ':'
    requires s[0..4] == year && s[5..7] == month && s[8..10] == day && s[11..13] == h && s[14..16] == m && s[17..19] == sec
    ensures s[..19] == year + "-" + month + "-" + day + "T" + (h + ":" + m + ":" + sec)
  {
  }

  lemma OffsetRead(s: string, i: nat) returns (z: Zone)
    requires i <= |s| && OffsetMinutes(s, i).Some?
    ensures ValidZone(z) && s[i..] == PrintZone(z) && OffsetMinutes(s, i) == Some(ZoneMinutes(z))
  {
    if i + 1 == |s| && s[i] == 'Z' {
      z := Zulu;
    } else {
      TwoDigits(s, i + 1);
      TwoDigits(s, i + 4);
      z := Numeric(s[i] == '-', Digits(s, i + 1, 2).value, Digits(s, i + 4, 2).value);
    }
  }

  /** The text of a local date, a time of day in seconds, an optional fraction and a zone. */
  ghost predicate Shown(s: string, d: Date, t: nat, fraction: string, z: Zone) {
    && Valid(d) && 0 <= d.year <= 9999 && t < 86_400 && AllDigits(fraction) && ValidZone(z)
    && s == PrintDate(d) + "T" + PrintTime(t * 1_000) + (if fraction == "" then "" else "." + fraction) + PrintZone(z)
  }

  /** Tenths, hundredths and thousandths; finer digits are dropped. */
  ghost function Thousandths(fraction: string): int
    requires AllDigits(fraction)
  {
    (if |fraction| > 0 then DigitValue(fraction[0]) * 100 else 0) + (if |fraction| > 1 then DigitValue(fraction[1]) * 10 else 0)
    + (if |fraction| > 2 then DigitValue(fraction[2]) else 0)
  }

  lemma MillisAreThousandths(fraction: string)
    requires AllDigits(fraction)
    ensures Millis(fraction) == Thousandths(fraction)
  {
    var t := (fraction + "00" + "0")[..3];
    DigitOfValue(t[0]);
    DigitOfValue(t[1]);
    DigitOfValue(t[2]);
    ValueOfTwo(DigitValue(t[0]), DigitValue(t[1]));
    ValueAppend([t[0], t[1]], DigitValue(t[2]));
    assert t == [t[0], t[1]] + [t[2]];
    assert DigitValue('0') == 0;
  }

  ghost predicate Reads(s: string, m: int, d: Date, t: nat, fraction: string, z: Zone) {
    Shown(s, d, t, fraction, z) && m == ((DayNumber(d) * 86_400 + t) - ZoneMinutes(z) * 60) * 1_000 + Thousandths(fraction)
  }

  /**
   A text is read as an instant if and only if it shows a valid date of a four-digit year, a time of
   day, an optional fraction and a zone up to 23:59 either way, and the instant is the one shown.
   */
  lemma ParsesExactly(s: string, m: int)
    ensures ParseMillis(s) == Some(m) <==> exists d, t, fraction, z :: Reads(s, m, d, t, fraction, z)
  {
    if ParseMillis(s) == Some(m) {
      ParsedShows(s, m);
    }
    if d, t, fraction, z :| Reads(s, m, d, t, fraction, z) {
      ShownParses(s, m, d, t, fraction, z);
    }
  }

  lemma ParsedShows(s: string, m: int)
    requires ParseMillis(s) == Some(m)
    ensures exists d, t, fraction, z :: Reads(s, m, d, t, fraction, z)
  {
    hide LocalSeconds, DaysFromCivil, PrintDate, PrintTime, PrintZone, OffsetMinutes, Millis, Thousandths, AllDigits;
    var d, t := LocalRead(s);
    var index := if s[19] == '.' then DigitsEnd(s, 20) else 19;
    var z := OffsetRead(s, index);
    var fraction := if s[19] == '.' then s[20..index] else "";
    NoDigits();
    MillisAreThousandths(fraction);
    ShowsParts(s, d, t, fraction, z, index);
    assert Reads(s, m, d, t, fraction, z);
  }

  lemma NoDigits()
    ensures AllDigits("") && Thousandths("") == 0
  {
  }

  lemma ShowsParts(s: string, d: Date, t: nat, fraction: string, z: Zone, index: nat)
    requires Valid(d) && 0 <= d.year <= 9999 && t < 86_400 && AllDigits(fraction) && ValidZone(z)
    requires |s| >= 20 && 19 <= index <= |s| && s[..19] == PrintDate(d) + "T" + PrintTime(t * 1_000) && s[index..] == PrintZone(z)
    requires if s[19] == '.' then index > 20 && fraction == s[20..index] else index == 19 && fraction == ""
    ensures Shown(s, d, t, fraction, z)
  {
    hide PrintDate, PrintTime, PrintZone, AllDigits;
    assert s == s[..19] + (if s[19] == '.' then "." + s[20..index] else "") + s[index..];
  }

  lemma ShownParses(s: string, m: int, d: Date, t: nat, fraction: string, z: Zone)
    requires Reads(s, m, d, t, fraction, z)
    ensures ParseMillis(s) == Some(m)
  {
    hide *;
    ReadsShown(s, m, d, t, fraction, z);
    NoDigits();
    MillisAreThousandths(fraction);
    LocalShown(s, d, t, if fraction == "" then "" else "." + fraction, z);
    TailParses(s, PrintDate(d) + "T" + PrintTime(t * 1_000), fraction, z, DayNumber(d) * 86_400 + t);
  }

  lemma LocalShown(s: string, d: Date, t: nat, middle: string, z: Zone)
    requires Valid(d) && 0 <= d.year <= 9999 && t < 86_400 && ValidZone(z)
    requires s == PrintDate(d) + "T" + PrintTime(t * 1_000) + middle + PrintZone(z)
    ensures s == PrintDate(d) + "T" + PrintTime(t * 1_000) + (middle + PrintZone(z))
    ensures |PrintDate(d) + "T" + PrintTime(t * 1_000)| == 19
    ensures LocalSeconds(s) == Some(DayNumber(d) * 86_400 + t)
  {
    hide PrintDate, PrintTime, PrintZone, LocalSeconds, DaysFromCivil, MonthLength;
    ZoneNotEmpty(z);
    Joined(PrintDate(d) + "T" + PrintTime(t * 1_000), middle, PrintZone(z));
    LocalSecondsOfPrinted(d, t * 1_000, middle + PrintZone(z));
  }

  lemma Joined(a: string, b: string, c: string)
    ensures a + b + c == a + (b + c)
  {
  }

  lemma ReadsShown(s: string, m: int, d: Date, t: nat, fraction: string, z: Zone)
    requires Reads(s, m, d, t, fraction, z)
    ensures Valid(d) && 0 <= d.year <= 9999 && t < 86_400 && t * 1_000 < DAY_MS && AllDigits(fraction) && ValidZone(z)
    ensures s == PrintDate(d) + "T" + PrintTime(t * 1_000) + (if fraction == "" then "" else "." + fraction) + PrintZone(z)
    ensures m == ((DayNumber(d) * 86_400 + t) - ZoneMinutes(z) * 60) * 1_000 + Thousandths(fraction)
  {
    hide DaysFromCivil, PrintDate, PrintTime, PrintZone;
  }

  lemma TailParses(s: string, head: string, fraction: string, z: Zone, local: int)
    requires |head| == 19 && AllDigits(fraction) && ValidZone(z) && LocalSeconds(s) == Some(local)
    requires s == head + ((if fraction == "" then "" else "." + fraction) + PrintZone(z))
    ensures ParseMillis(s) == Some((local - ZoneMinutes(z) * 60) * 1_000 + if fraction == "" then 0 else Millis(fraction))
  {
    hide LocalSeconds, PrintZone, OffsetMinutes, Millis;
    var e := |s| - |PrintZone(z)|;
    ZoneNotEmpty(z);
    assert s[e..] == PrintZone(z) && s == s[..e] + PrintZone(z);
    OffsetOfPrinted(s[..e], z);
    assert s[e] == s[e..][0];
    if fraction != "" {
      assert s[19] == '.' && s[20..e] == fraction;
      DigitsEndAt(s, 20, e);
    }
  }

  lemma ZoneNotEmpty(z: Zone)
    requires ValidZone(z)
    ensures PrintZone(z) != "" && PrintZone(z)[0] != '.' && !IsDigit(PrintZone(z)[0])
  {
  }
}
