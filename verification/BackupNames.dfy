// What a backup is called, and why sorting names sorts backups by age (src/lib/backupSchedule.ts:82-93,
// backupFilename in src/services/backup.service.ts).
module BackupNames {
  import opened SortedStrings

  const PREFIX := "alayra-nexus-backup-"
  const SUFFIX := ".nxb"
  const PARTIAL_SUFFIX := ".partial"

  predicate IsDigit(c: char) { '0' <= c <= '9' }

  // isBackupFilename: the prefix, four digits, five times a dash and two digits, the suffix.
  predicate IsBackupName(name: string) {
    && |name| == 43
    && name[..20] == PREFIX
    && (forall i :: 20 <= i < 24 ==> IsDigit(name[i]))
    && name[24] == '-' && IsDigit(name[25]) && IsDigit(name[26])
    && name[27] == '-' && IsDigit(name[28]) && IsDigit(name[29])
    && name[30] == '-' && IsDigit(name[31]) && IsDigit(name[32])
    && name[33] == '-' && IsDigit(name[34]) && IsDigit(name[35])
    && name[36] == '-' && IsDigit(name[37]) && IsDigit(name[38])
    && name[39..] == SUFFIX
  }

  // ── Fixed-width numbers ──────────────────────────────────────────────────────────────────────

  function Pow10(width: nat): (p: nat)
    ensures p >= 1
  {
    if width == 0 then 1 else 10 * Pow10(width - 1)
  }

  lemma {:induction false} PowersOfTen()
    ensures Pow10(2) == 100 && Pow10(4) == 10000
  {
    assert Pow10(1) == 10 * Pow10(0) && Pow10(2) == 10 * Pow10(1);
    assert Pow10(3) == 10 * Pow10(2) && Pow10(4) == 10 * Pow10(3);
  }

  function DigitChar(d: nat): char
    requires d < 10
  {
    '0' + d as char
  }

  function DigitOf(c: char): (d: nat)
    requires IsDigit(c)
    ensures d < 10 && DigitChar(d) == c
  {
    (c - '0') as nat
  }

  // A number padded with zeros to `width` digits.
  function Digits(width: nat, n: nat): (s: string)
    ensures |s| == width
    ensures forall i :: 0 <= i < width ==> IsDigit(s[i])
  {
    if width == 0 then "" else Digits(width - 1, n / 10) + [DigitChar(n % 10)]
  }

  function Value(s: string): nat
    requires forall i :: 0 <= i < |s| ==> IsDigit(s[i])
  {
    if s == "" then 0 else Value(s[..|s| - 1]) * 10 + DigitOf(s[|s| - 1])
  }

  lemma {:induction false} LastDigit(width: nat, v: nat, d: nat)
    requires d < 10 && v < Pow10(width)
    ensures Digits(width + 1, v * 10 + d) == Digits(width, v) + [DigitChar(d)]
    ensures v * 10 + d < Pow10(width + 1)
  {
    assert (v * 10 + d) / 10 == v;
    assert (v * 10 + d) % 10 == d;
  }

  lemma {:induction false} DigitsOfValue(s: string)
    requires forall i :: 0 <= i < |s| ==> IsDigit(s[i])
    ensures Digits(|s|, Value(s)) == s
    ensures Value(s) < Pow10(|s|)
  {
    if s != "" {
      var n := |s| - 1;
      var v := Value(s[..n]);
      DigitsOfValue(s[..n]);
      LastDigit(n, v, DigitOf(s[n]));
      assert s == s[..n] + [s[n]];
    }
  }

  // Two strings made of parts of equal length are ordered by their first parts, then by the rest.
  lemma {:induction false} OrderByParts(a: string, b: string, x: string, y: string)
    requires |a| == |b|
    ensures Less(a + x, b + y) <==> Less(a, b) || (a == b && Less(x, y))
    decreases |a|
  {
    if a == "" {
      assert a + x == x && b + y == y;
    } else {
      OrderByParts(a[1..], b[1..], x, y);
      assert (a + x)[1..] == a[1..] + x && (b + y)[1..] == b[1..] + y;
      assert a == [a[0]] + a[1..] && b == [b[0]] + b[1..];
    }
  }

  lemma {:induction false} DigitsOrder(width: nat, m: nat, n: nat)
    requires m < Pow10(width) && n < Pow10(width)
    ensures Less(Digits(width, m), Digits(width, n)) <==> m < n
    ensures Digits(width, m) == Digits(width, n) <==> m == n
  {
    if width > 0 {
      var a, b := Digits(width - 1, m / 10), Digits(width - 1, n / 10);
      var x, y := [DigitChar(m % 10)], [DigitChar(n % 10)];
      DigitsOrder(width - 1, m / 10, n / 10);
      OrderByParts(a, b, x, y);
      assert Less(x, y) <==> m % 10 < n % 10;
      assert (a + x)[..width - 1] == a && (b + y)[..width - 1] == b;
      assert (a + x)[width - 1] == x[0] && (b + y)[width - 1] == y[0];
    }
  }

  // ── Names and times ──────────────────────────────────────────────────────────────────────────

  datatype Time = Time(year: nat, month: nat, day: nat, hour: nat, minute: nat, second: nat) {
    // Fits the name's digits.
    predicate Fits() {
      year < 10000 && month < 100 && day < 100 && hour < 100 && minute < 100 && second < 100
    }

    // Is on the calendar, in a year toISOString writes in four digits.
    predicate OnCalendar() {
      && year < 10000 && 1 <= month <= 12 && 1 <= day <= DaysIn(year, month)
      && hour < 24 && minute < 60 && second < 60
    }

    predicate Before(u: Time) {
      || year < u.year
      || (year == u.year && (month < u.month
      || (month == u.month && (day < u.day
      || (day == u.day && (hour < u.hour
      || (hour == u.hour && (minute < u.minute
      || (minute == u.minute && second < u.second)))))))))
    }
  }

  function DashTwo(n: nat): (s: string)
    ensures |s| == 3
  {
    "-" + Digits(2, n)
  }

  function SecondAndOn(t: Time): string { DashTwo(t.second) + SUFFIX }
  function MinuteAndOn(t: Time): string { DashTwo(t.minute) + SecondAndOn(t) }
  function HourAndOn(t: Time): string { DashTwo(t.hour) + MinuteAndOn(t) }
  function DayAndOn(t: Time): string { DashTwo(t.day) + HourAndOn(t) }
  function MonthAndOn(t: Time): string { DashTwo(t.month) + DayAndOn(t) }

  // backupFilename: the time in UTC, in the name.
  function Name(t: Time): string { PREFIX + (Digits(4, t.year) + MonthAndOn(t)) }

  lemma {:induction false} DashTwoOrder(m: nat, n: nat)
    requires m < 100 && n < 100
    ensures Less(DashTwo(m), DashTwo(n)) <==> m < n
    ensures DashTwo(m) == DashTwo(n) <==> m == n
  {
    PowersOfTen();
    DigitsOrder(2, m, n);
    OrderByParts("-", "-", Digits(2, m), Digits(2, n));
    LessIrreflexive("-");
    assert DashTwo(m)[1..] == Digits(2, m) && DashTwo(n)[1..] == Digits(2, n);
  }

  // Names sort as the times in them.
  lemma {:induction false} NamesSortByTime(t: Time, u: Time)
    requires t.Fits() && u.Fits()
    ensures Less(Name(t), Name(u)) <==> t.Before(u)
  {
    LessIrreflexive(SUFFIX);
    LessIrreflexive(PREFIX);
    DashTwoOrder(t.second, u.second);
    OrderByParts(DashTwo(t.second), DashTwo(u.second), SUFFIX, SUFFIX);
    DashTwoOrder(t.minute, u.minute);
    OrderByParts(DashTwo(t.minute), DashTwo(u.minute), SecondAndOn(t), SecondAndOn(u));
    DashTwoOrder(t.hour, u.hour);
    OrderByParts(DashTwo(t.hour), DashTwo(u.hour), MinuteAndOn(t), MinuteAndOn(u));
    DashTwoOrder(t.day, u.day);
    OrderByParts(DashTwo(t.day), DashTwo(u.day), HourAndOn(t), HourAndOn(u));
    DashTwoOrder(t.month, u.month);
    OrderByParts(DashTwo(t.month), DashTwo(u.month), DayAndOn(t), DayAndOn(u));
    PowersOfTen();
    DigitsOrder(4, t.year, u.year);
    OrderByParts(Digits(4, t.year), Digits(4, u.year), MonthAndOn(t), MonthAndOn(u));
    OrderByParts(PREFIX, PREFIX, Digits(4, t.year) + MonthAndOn(t), Digits(4, u.year) + MonthAndOn(u));
  }

  // The names that are recognised are exactly the names that are given, to any times with digits to
  // fit; so a half-written file's name, which has more after the suffix, is never one.
  lemma {:induction false} RecognisedIsGiven(name: string)
    ensures IsBackupName(name) <==> exists t: Time :: t.Fits() && name == Name(t)
    ensures IsBackupName(name) ==> !IsBackupName(name + PARTIAL_SUFFIX)
  {
    if IsBackupName(name) {
      var t := TimeIn(name);
      assert t.Fits() && name == Name(t);
    }
    if t: Time :| t.Fits() && name == Name(t) { NameShape(t); }
  }

  lemma {:induction false} NameShape(t: Time)
    ensures IsBackupName(Name(t))
  {
    var n := Name(t);
    assert n[..20] == PREFIX;
    assert n[20..24] == Digits(4, t.year);
    assert forall i :: 20 <= i < 24 ==> n[i] == n[20..24][i - 20];
    var m := MonthAndOn(t);
    assert n[24..] == m;
    assert forall i :: 24 <= i < 43 ==> n[i] == m[i - 24];
    TailShape(t);
    assert n[39..] == m[15..];
  }

  lemma {:induction false} TailShape(t: Time)
    ensures var m := MonthAndOn(t);
      && |m| == 19 && m[15..] == SUFFIX
      && m[0] == m[3] == m[6] == m[9] == m[12] == '-'
      && IsDigit(m[1]) && IsDigit(m[2]) && IsDigit(m[4]) && IsDigit(m[5]) && IsDigit(m[7]) && IsDigit(m[8])
      && IsDigit(m[10]) && IsDigit(m[11]) && IsDigit(m[13]) && IsDigit(m[14])
  {
    var m := MonthAndOn(t);
    assert m[1] == Digits(2, t.month)[0] && m[2] == Digits(2, t.month)[1];
    assert m[4] == Digits(2, t.day)[0] && m[5] == Digits(2, t.day)[1];
    assert m[7] == Digits(2, t.hour)[0] && m[8] == Digits(2, t.hour)[1];
    assert m[10] == Digits(2, t.minute)[0] && m[11] == Digits(2, t.minute)[1];
    assert m[13] == Digits(2, t.second)[0] && m[14] == Digits(2, t.second)[1];
    assert m[15..] == SUFFIX;
  }

  lemma {:induction false} TwoDigits(name: string, i: nat) returns (n: nat)
    requires i + 3 <= |name| && name[i] == '-' && IsDigit(name[i + 1]) && IsDigit(name[i + 2])
    ensures n < 100 && name[i..i + 3] == DashTwo(n)
  {
    var s := name[i + 1..i + 3];
    DigitsOfValue(s);
    n := Value(s);
    PowersOfTen();
    assert name[i..i + 3] == "-" + s;
  }

  lemma {:induction false} TimeIn(name: string) returns (t: Time)
    requires IsBackupName(name)
    ensures t.Fits() && name == Name(t)
  {
    var y := name[20..24];
    DigitsOfValue(y);
    PowersOfTen();
    var mo := TwoDigits(name, 24);
    var d := TwoDigits(name, 27);
    var h := TwoDigits(name, 30);
    var mi := TwoDigits(name, 33);
    var s := TwoDigits(name, 36);
    t := Time(Value(y), mo, d, h, mi, s);
    ClockInName(name, t);
    DateInName(name, t);
  }

  lemma {:induction false} ClockInName(name: string, t: Time)
    requires |name| == 43 && name[39..] == SUFFIX
    requires name[30..33] == DashTwo(t.hour) && name[33..36] == DashTwo(t.minute) && name[36..39] == DashTwo(t.second)
    ensures name[30..] == HourAndOn(t)
  {
    assert name[36..] == name[36..39] + name[39..];
    assert name[33..] == name[33..36] + name[36..];
    assert name[30..] == name[30..33] + name[33..];
  }

  lemma {:induction false} DateInName(name: string, t: Time)
    requires |name| == 43 && name[..20] == PREFIX && name[20..24] == Digits(4, t.year)
    requires name[24..27] == DashTwo(t.month) && name[27..30] == DashTwo(t.day) && name[30..] == HourAndOn(t)
    ensures name == Name(t)
  {
    assert name[27..] == name[27..30] + name[30..];
    assert name[24..] == name[24..27] + name[27..];
    assert name[20..] == name[20..24] + name[24..];
    assert name == name[..20] + name[20..];
  }

  // ── The calendar ─────────────────────────────────────────────────────────────────────────────

  predicate IsLeap(year: nat) { year % 4 == 0 && (year % 100 != 0 || year % 400 == 0) }

  function DaysIn(year: nat, month: nat): nat {
    if month == 2 then (if IsLeap(year) then 29 else 28)
    else if month == 4 || month == 6 || month == 9 || month == 11 then 30
    else 31
  }

  function DaysBeforeMonth(year: nat, month: nat): nat {
    if month <= 1 then 0 else DaysBeforeMonth(year, month - 1) + DaysIn(year, month - 1)
  }

  function DaysBeforeYear(year: nat): nat {
    if year == 0 then 0 else DaysBeforeYear(year - 1) + DaysBeforeMonth(year - 1, 13)
  }

  // Seconds since the start of year 0.
  function Instant(t: Time): nat {
    (DaysBeforeYear(t.year) + DaysBeforeMonth(t.year, t.month) + t.day) * 86400
      + t.hour * 3600 + t.minute * 60 + t.second
  }

  // A year has 365 days, or 366 where it is a leap year, as every fourth is but for three centuries in four.
  lemma {:induction false} YearLength(year: nat)
    ensures DaysBeforeYear(year + 1) - DaysBeforeYear(year) == if IsLeap(year) then 366 else 365
    ensures DaysBeforeMonth(year, 13) == if IsLeap(year) then 366 else 365
  {
    MonthsToJuly(year);
    assert DaysBeforeMonth(year, 8) == DaysBeforeMonth(year, 7) + 31 && DaysBeforeMonth(year, 9) == DaysBeforeMonth(year, 8) + 31;
    assert DaysBeforeMonth(year, 10) == DaysBeforeMonth(year, 9) + 30 && DaysBeforeMonth(year, 11) == DaysBeforeMonth(year, 10) + 31;
    assert DaysBeforeMonth(year, 12) == DaysBeforeMonth(year, 11) + 30 && DaysBeforeMonth(year, 13) == DaysBeforeMonth(year, 12) + 31;
  }

  lemma {:induction false} MonthsToJuly(year: nat)
    ensures DaysBeforeMonth(year, 7) == if IsLeap(year) then 182 else 181
  {
    assert DaysBeforeMonth(year, 2) == DaysBeforeMonth(year, 1) + 31;
    assert DaysBeforeMonth(year, 3) == DaysBeforeMonth(year, 2) + (if IsLeap(year) then 29 else 28);
    assert DaysBeforeMonth(year, 4) == DaysBeforeMonth(year, 3) + 31 && DaysBeforeMonth(year, 5) == DaysBeforeMonth(year, 4) + 30;
    assert DaysBeforeMonth(year, 6) == DaysBeforeMonth(year, 5) + 31 && DaysBeforeMonth(year, 7) == DaysBeforeMonth(year, 6) + 30;
  }

  lemma {:induction false} LeapYears(year: nat)
    ensures year % 4 != 0 ==> !IsLeap(year)
    ensures IsLeap(2000) && IsLeap(2024) && IsLeap(2400) && !IsLeap(1900) && !IsLeap(2100) && !IsLeap(2200)
  {
  }

  lemma {:induction false} LaterMonth(year: nat, m: nat, n: nat)
    requires 1 <= m < n
    ensures DaysBeforeMonth(year, m) + DaysIn(year, m) <= DaysBeforeMonth(year, n)
    decreases n
  {
    if m < n - 1 { LaterMonth(year, m, n - 1); }
  }

  lemma {:induction false} LaterYear(y: nat, z: nat)
    requires y < z
    ensures DaysBeforeYear(y) + DaysBeforeMonth(y, 13) <= DaysBeforeYear(z)
    decreases z
  {
    if y < z - 1 { LaterYear(y, z - 1); }
  }

  lemma {:induction false} LaterDate(t: Time, u: Time)
    requires t.OnCalendar() && u.OnCalendar()
    requires t.year < u.year || (t.year == u.year && t.month < u.month)
    ensures DaysBeforeYear(t.year) + DaysBeforeMonth(t.year, t.month) + t.day
         <= DaysBeforeYear(u.year) + DaysBeforeMonth(u.year, u.month)
  {
    if t.year < u.year {
      LaterYear(t.year, u.year);
      LaterMonth(t.year, t.month, 13);
    } else {
      LaterMonth(t.year, t.month, u.month);
    }
  }

  lemma {:induction false} EarlierIsLess(t: Time, u: Time)
    requires t.OnCalendar() && u.OnCalendar() && t.Before(u)
    ensures Instant(t) < Instant(u)
  {
    if t.year < u.year || (t.year == u.year && t.month < u.month) { LaterDate(t, u); }
  }

  // The whole point of the name: of two backups, the one whose name sorts first is the older one.
  lemma {:induction false} NamesSortByAge(t: Time, u: Time)
    requires t.OnCalendar() && u.OnCalendar()
    ensures Less(Name(t), Name(u)) <==> Instant(t) < Instant(u)
  {
    NamesSortByTime(t, u);
    if t.Before(u) { EarlierIsLess(t, u); }
    if u.Before(t) { EarlierIsLess(u, t); }
  }
}
