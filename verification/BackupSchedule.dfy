// When a scheduled backup is due (src/lib/backupSchedule.ts). Instants are epoch milliseconds.
module BackupSchedule {
  import opened Options
  import opened Text

  const DAY_MS := 86_400_000
  const MAX_EVERY_DAYS := 30
  const MAX_KEEP := 365

  // `path` is the folder of the copy outside the database, which is made only when it is switched on.
  datatype Schedule = Schedule(enabled: bool, everyDays: int, hourUtc: int, minuteUtc: int, keep: int,
                               copyOffMachine: bool, path: string)

  const DEFAULT_SCHEDULE := Schedule(false, 1, 4, 0, 7, false, "")

  // destinationProblem: no path, or one that is not absolute on some system.
  predicate PathProblem(path: string) {
    var p := Trim(path);
    p == "" || !("/" <= p || "\\\\" <= p || OnDrive(p))
  }

  predicate OnDrive(p: string) {
    |p| >= 3 && ('A' <= p[0] <= 'Z' || 'a' <= p[0] <= 'z') && p[1] == ':' && (p[2] == '\\' || p[2] == '/')
  }

  // scheduleProblem, but for the destination...
  predicate HasProblem(s: Schedule) {
    || s.everyDays < 1 || s.everyDays > MAX_EVERY_DAYS
    || s.hourUtc < 0 || s.hourUtc > 23
    || s.minuteUtc < 0 || s.minuteUtc > 59
    || s.keep < 1 || s.keep > MAX_KEEP
  }

  // ...and with it.
  predicate ScheduleProblem(s: Schedule) { HasProblem(s) || (s.copyOffMachine && PathProblem(s.path)) }

  // ── Reading a stored schedule ────────────────────────────────────────────────────────────────

  // A field of the stored JSON: a finite number, or anything else.
  datatype Field = Number(value: real) | Other

  function Clamp(f: Field, fallback: int, min: int, max: int): int {
    if f.Other? then fallback
    else if f.value.Floor < min then min
    else if f.value.Floor > max then max
    else f.value.Floor
  }

  // `copyOffMachine` and `path` are None where they are not a boolean and a string.
  datatype Stored = Stored(enabled: bool, everyDays: Field, hourUtc: Field, minuteUtc: Field, keep: Field,
                           copyOffMachine: Option<bool>, path: Option<string>)

  // parseSchedule, once the row is read as JSON: None when it is not an object.
  function Parse(raw: Option<Stored>): Schedule {
    if raw.None? then DEFAULT_SCHEDULE
    else
      var p, d := raw.value, DEFAULT_SCHEDULE;
      Schedule(p.enabled,
               Clamp(p.everyDays, d.everyDays, 1, MAX_EVERY_DAYS),
               Clamp(p.hourUtc, d.hourUtc, 0, 23),
               Clamp(p.minuteUtc, d.minuteUtc, 0, 59),
               Clamp(p.keep, d.keep, 1, MAX_KEEP),
               p.copyOffMachine.GetOr(Trim(p.path.GetOr("")) != ""),
               p.path.GetOr(""))
  }

  function Store(s: Schedule): Stored {
    Stored(s.enabled, Number(s.everyDays as real), Number(s.hourUtc as real), Number(s.minuteUtc as real),
           Number(s.keep as real), Some(s.copyOffMachine), Some(s.path))
  }

  // A number out of range is read as the nearest in range, and what is no number as the default.
  lemma {:induction false} ClampNearest(f: Field, fallback: int, min: int, max: int, other: int)
    requires min <= other <= max
    ensures f.Other? ==> Clamp(f, fallback, min, max) == fallback
    ensures f.Number? ==> min <= Clamp(f, fallback, min, max) <= max
    ensures f.Number? && other != Clamp(f, fallback, min, max) ==>
      Distance(f.value.Floor, Clamp(f, fallback, min, max)) < Distance(f.value.Floor, other)
  {
  }

  function Distance(a: int, b: int): nat { if a <= b then b - a else a - b }

  // Nothing readable is the default: off, each day at four, the last seven kept. So is each number that is
  // not there by itself; and every schedule read is on exactly when it was stored so.
  lemma {:induction false} DefaultsStand(p: Stored)
    ensures Parse(None) == Schedule(false, 1, 4, 0, 7, false, "")
    ensures var s := Parse(Some(p));
      && s.enabled == p.enabled
      && (p.everyDays.Other? ==> s.everyDays == 1) && (p.hourUtc.Other? ==> s.hourUtc == 4)
      && (p.minuteUtc.Other? ==> s.minuteUtc == 0) && (p.keep.Other? ==> s.keep == 7)
  {
  }

  // From the root, on a host, or on a drive.
  ghost predicate Absolute(p: string) { FromRoot(p) || OnHost(p) || exists drive: char :: FromDrive(p, drive) }
  ghost predicate FromRoot(p: string) { exists rest: string :: p == "/" + rest }
  ghost predicate OnHost(p: string) { exists rest: string :: p == "\\\\" + rest }
  ghost predicate FromDrive(p: string, drive: char) {
    ('A' <= drive <= 'Z' || 'a' <= drive <= 'z')
    && exists rest: string :: p == [drive, ':', '/'] + rest || p == [drive, ':', '\\'] + rest
  }

  // The paths that will do are the absolute ones, whatever space is around them.
  lemma {:induction false} PathsThatDo(a: string, p: string, b: string)
    requires AllSpace(a) && AllSpace(b) && Bare(p)
    ensures PathProblem(a + p + b) <==> !Absolute(p)
  {
    TrimOf(a, p, b);
    if "/" <= p { assert p == "/" + p[1..]; }
    if "\\\\" <= p { assert p == "\\\\" + p[2..]; }
    DrivePaths(p);
  }

  lemma {:induction false} DrivePaths(p: string)
    ensures OnDrive(p) <==> exists drive: char :: FromDrive(p, drive)
  {
    if OnDrive(p) {
      assert p == [p[0], ':', p[2]] + p[3..];
      assert FromDrive(p, p[0]);
    }
  }

  // Whatever is stored reads as a schedule that can be kept, but for its destination, which is read
  // as it stands: what is read has a problem exactly when a copy is asked for, by the flag or, in a
  // row without one, by a path, and the path is no absolute one. A schedule is read back as it was
  // exactly when it had no problem but for the destination.
  lemma {:induction false} ParseRepairs(raw: Option<Stored>, s: Schedule)
    ensures !HasProblem(Parse(raw))
    ensures ScheduleProblem(Parse(raw)) <==>
      raw.Some? && PathProblem(raw.value.path.GetOr("")) && raw.value.copyOffMachine.GetOr(Trim(raw.value.path.GetOr("")) != "")
    ensures Parse(Some(Store(s))) == s <==> !HasProblem(s)
  {
    assert (s.everyDays as real).Floor == s.everyDays && (s.hourUtc as real).Floor == s.hourUtc;
    assert (s.minuteUtc as real).Floor == s.minuteUtc && (s.keep as real).Floor == s.keep;
  }

  // ── Due instants ─────────────────────────────────────────────────────────────────────────────

  function TimeOfDay(s: Schedule): int { (s.hourUtc * 60 + s.minuteUtc) * 60_000 }

  predicate OnCycle(day: int, everyDays: int)
    requires everyDays >= 1
  {
    day % everyDays == 0
  }

  // The instant a run is due on a day of the cycle.
  function DueOn(s: Schedule, day: int): int { day * DAY_MS + TimeOfDay(s) }

  ghost predicate IsDueInstant(s: Schedule, t: int)
    requires !HasProblem(s)
  {
    exists day :: OnCycle(day, s.everyDays) && t == DueOn(s, day)
  }

  // A due instant is its schedule's hour and minute of the day, UTC, to the millisecond; its day is one of
  // the cycle, counted from the epoch.
  lemma {:induction false} DueAtItsTime(s: Schedule, t: int)
    requires !HasProblem(s)
    ensures IsDueInstant(s, t) <==>
      && t % DAY_MS / 3_600_000 == s.hourUtc && t % 3_600_000 / 60_000 == s.minuteUtc && t % 60_000 == 0
      && (t / DAY_MS) % s.everyDays == 0
  {
    var day := t / DAY_MS;
    FromClock(t);
    if IsDueInstant(s, t) {
      var d :| OnCycle(d, s.everyDays) && t == DueOn(s, d);
      OnClock(d, s.hourUtc, s.minuteUtc);
    } else {
      assert OnCycle(day, s.everyDays) ==> t != DueOn(s, day);
    }
  }

  lemma {:induction false} OnClock(day: int, hour: int, minute: int)
    requires 0 <= hour <= 23 && 0 <= minute <= 59
    ensures var t := day * DAY_MS + (hour * 60 + minute) * 60_000;
            && t / DAY_MS == day && t % DAY_MS / 3_600_000 == hour && t % 3_600_000 / 60_000 == minute && t % 60_000 == 0
  {
    DayPart(day, (hour * 60 + minute) * 60_000);
    HourPart(hour, minute * 60_000);
    HourPart(day * 24 + hour, minute * 60_000);
    MinutePart(minute, 0);
    MinutePart(day * 1440 + hour * 60 + minute, 0);
  }

  lemma {:induction false} DayPart(q: int, r: int)
    requires 0 <= r < 86_400_000
    ensures (q * 86_400_000 + r) / 86_400_000 == q && (q * 86_400_000 + r) % 86_400_000 == r
  {
  }

  lemma {:induction false} HourPart(q: int, r: int)
    requires 0 <= r < 3_600_000
    ensures (q * 3_600_000 + r) / 3_600_000 == q && (q * 3_600_000 + r) % 3_600_000 == r
  {
  }

  lemma {:induction false} MinutePart(q: int, r: int)
    requires 0 <= r < 60_000
    ensures (q * 60_000 + r) / 60_000 == q && (q * 60_000 + r) % 60_000 == r
  {
  }

  lemma {:induction false} FromClock(t: int)
    ensures t == t / DAY_MS * DAY_MS + (t % DAY_MS / 3_600_000 * 60 + t % 3_600_000 / 60_000) * 60_000 + t % 60_000
  {
    var day, r := t / 86_400_000, t % 86_400_000;
    var hour, x := r / 3_600_000, r % 3_600_000;
    var minute, y := x / 60_000, x % 60_000;
    HourPart(day * 24 + hour, x);
    MinutePart(day * 1440 + hour * 60 + minute, y);
  }

  // The greatest due instant at or before `now`.
  ghost predicate IsLastDue(s: Schedule, now: int, t: int)
    requires !HasProblem(s)
  {
    && IsDueInstant(s, t) && t <= now
    && (forall u :: IsDueInstant(s, u) && u <= now ==> u <= t)
  }

  // The least due instant after `now`.
  ghost predicate IsNextDue(s: Schedule, now: int, t: int)
    requires !HasProblem(s)
  {
    && IsDueInstant(s, t) && t > now
    && (forall u :: IsDueInstant(s, u) && u > now ==> t <= u)
  }

  lemma {:induction false} DayOf(s: Schedule, now: int, day: int)
    requires !HasProblem(s)
    ensures DueOn(s, day) <= now ==> day <= now / DAY_MS
    ensures day < now / DAY_MS ==> DueOn(s, day) < now
    ensures DueOn(s, day) > now ==> day >= now / DAY_MS
    ensures day > now / DAY_MS ==> DueOn(s, day) > now
  {
    assert 0 <= TimeOfDay(s) < DAY_MS;
  }

  lemma {:induction false} DueOrder(s: Schedule, a: int, b: int)
    ensures DueOn(s, a) <= DueOn(s, b) <==> a <= b
  {
  }

  // A cycle has a day in every stretch of `n` days.
  lemma {:induction false} CycleBack(last: int, n: int) returns (day: int)
    requires n >= 1
    ensures OnCycle(day, n) && last - n < day <= last
  {
    day := last - last % n;
    assert last == n * (last / n) + last % n;
    assert day == n * (last / n);
    MultipleOnCycle(last / n, n);
  }

  lemma {:induction false} MultipleSigns(n: int, x: int)
    requires n >= 1
    ensures x >= 1 ==> n * x >= n
    ensures x <= 0 ==> n * x <= 0
    ensures x <= -1 ==> n * x <= -n
  {
  }

  lemma {:induction false} MultipleOnCycle(k: int, n: int)
    requires n >= 1
    ensures OnCycle(n * k, n)
  {
    assert n * k == n * ((n * k) / n) + (n * k) % n;
    var q, r := (n * k) / n, (n * k) % n;
    assert n * (k - q) == r;
    MultipleSigns(n, k - q);
  }

  // The last due instant: always there, and no other instant is one.
  function LastDue(s: Schedule, now: int): (t: int)
    requires !HasProblem(s)
    ensures IsLastDue(s, now, t)
  {
    var today := now / DAY_MS;
    var day := if DueOn(s, today) <= now then today else today - 1;
    var onCycle := day - day % s.everyDays;
    LastDueFound(s, now, day);
    DueOn(s, onCycle)
  }

  lemma {:induction false} LastDueFound(s: Schedule, now: int, day: int)
    requires !HasProblem(s)
    requires day == if DueOn(s, now / DAY_MS) <= now then now / DAY_MS else now / DAY_MS - 1
    ensures IsLastDue(s, now, DueOn(s, day - day % s.everyDays))
  {
    var n := s.everyDays;
    var found := day - day % n;
    assert day == n * (day / n) + day % n;
    assert found == n * (day / n);
    MultipleOnCycle(day / n, n);
    CycleStep(found, n);
    DayOf(s, now, day);
    DueOrder(s, found, day);
    forall d | found < d <= now / DAY_MS && OnCycle(d, n) ensures DueOn(s, d) > now {
      assert d >= found + n;
    }
    Greatest(s, now, found);
  }

  // lastDueAt: walk back from today to a cycle day whose time has come. It always finds one.
  method LastDueAt(s: Schedule, now: int) returns (r: Option<int>)
    requires !HasProblem(s)
    ensures r == Some(LastDue(s, now))
  {
    var today := now / DAY_MS;
    r := None;
    ghost var due := CycleBack(today - 1, s.everyDays);
    DayOf(s, now, due);
    var i := 0;
    while i <= s.everyDays
      invariant 0 <= i <= s.everyDays + 1
      invariant forall day :: today - i < day <= today && OnCycle(day, s.everyDays) ==> DueOn(s, day) > now
    {
      var day := today - i;
      if OnCycle(day, s.everyDays) && DueOn(s, day) <= now {
        r := Some(DueOn(s, day));
        Greatest(s, now, day);
        break;
      }
      i := i + 1;
    }
  }

  lemma {:induction false} Greatest(s: Schedule, now: int, day: int)
    requires !HasProblem(s) && OnCycle(day, s.everyDays) && DueOn(s, day) <= now
    requires forall d :: day < d <= now / DAY_MS && OnCycle(d, s.everyDays) ==> DueOn(s, d) > now
    ensures IsLastDue(s, now, DueOn(s, day))
  {
    forall u | IsDueInstant(s, u) && u <= now ensures u <= DueOn(s, day) {
      var d :| OnCycle(d, s.everyDays) && u == DueOn(s, d);
      DayOf(s, now, d);
      DueOrder(s, d, day);
    }
  }

  // nextDueAt: walk forward to a cycle day whose time has not come. The fallback is never used.
  method NextDueAt(s: Schedule, now: int) returns (r: int)
    requires !HasProblem(s)
    ensures IsNextDue(s, now, r)
  {
    var today := now / DAY_MS;
    r := now + s.everyDays * DAY_MS;
    ghost var due := CycleBack(today + s.everyDays, s.everyDays);
    DayOf(s, now, due);
    ghost var found := false;
    var i := 0;
    while i <= s.everyDays + 1
      invariant 0 <= i <= s.everyDays + 2 && !found
      invariant forall day :: today <= day < today + i && OnCycle(day, s.everyDays) ==> DueOn(s, day) <= now
    {
      var day := today + i;
      if OnCycle(day, s.everyDays) && DueOn(s, day) > now {
        r := DueOn(s, day);
        found := true;
        Least(s, now, day);
        break;
      }
      i := i + 1;
    }
    assert found;
  }

  lemma {:induction false} Least(s: Schedule, now: int, day: int)
    requires !HasProblem(s) && OnCycle(day, s.everyDays) && DueOn(s, day) > now
    requires forall d :: now / DAY_MS <= d < day && OnCycle(d, s.everyDays) ==> DueOn(s, d) <= now
    ensures IsNextDue(s, now, DueOn(s, day))
  {
    forall u | IsDueInstant(s, u) && u > now ensures DueOn(s, day) <= u {
      var d :| OnCycle(d, s.everyDays) && u == DueOn(s, d);
      DayOf(s, now, d);
      DueOrder(s, day, d);
    }
  }

  lemma {:induction false} CycleStep(day: int, n: int)
    requires n >= 1 && OnCycle(day, n)
    ensures OnCycle(day + n, n) && OnCycle(day - n, n)
    ensures forall d :: day < d < day + n ==> !OnCycle(d, n)
  {
    var k := day / n;
    assert day == n * k;
    MultipleOnCycle(k + 1, n);
    MultipleOnCycle(k - 1, n);
    assert day + n == n * (k + 1) && day - n == n * (k - 1);
    forall d | day < d < day + n ensures !OnCycle(d, n) { BetweenCycles(k, n, d); }
  }

  lemma {:induction false} BetweenCycles(k: int, n: int, d: int)
    requires n >= 1 && n * k < d < n * k + n
    ensures !OnCycle(d, n)
  {
    var q := d / n;
    assert d == n * q + d % n;
    MultipleSigns(n, q - k);
  }

  // From the last due instant to the next is exactly the cycle.
  lemma {:induction false} OneCycleApart(s: Schedule, now: int, last: int, next: int)
    requires !HasProblem(s) && IsLastDue(s, now, last) && IsNextDue(s, now, next)
    ensures next == last + s.everyDays * DAY_MS
  {
    var n := s.everyDays;
    var a :| OnCycle(a, n) && last == DueOn(s, a);
    var b :| OnCycle(b, n) && next == DueOn(s, b);
    CycleStep(a, n);
    assert IsDueInstant(s, DueOn(s, a + n));
    DueOrder(s, a, b);
    DueOrder(s, b, a);
    DueOrder(s, a + n, a);
    DueOrder(s, b, a + n);
    assert a < b <= a + n;
    assert DueOn(s, a + n) == last + n * DAY_MS;
  }

  // ── Polling ──────────────────────────────────────────────────────────────────────────────────

  // isDue.
  predicate IsDue(s: Schedule, lastRunAt: Option<int>, now: int)
    requires !HasProblem(s)
  {
    s.enabled && (lastRunAt.None? || lastRunAt.value < LastDue(s, now))
  }

  // A visit to the runner that got its lock: the poll, which runs only what is owed, or "back up
  // now", which always runs.
  datatype Visit = Poll(at: int) | Manual(at: int)

  predicate Runs(s: Schedule, last: Option<int>, v: Visit)
    requires !HasProblem(s)
  {
    v.Manual? || IsDue(s, last, v.at)
  }

  // The recorded run after some visits. A run, failed or not, is stamped with its visit's instant.
  function Recorded(s: Schedule, last: Option<int>, visits: seq<Visit>): Option<int>
    requires !HasProblem(s)
  {
    if visits == [] then last
    else
      var n := |visits| - 1;
      var before := Recorded(s, last, visits[..n]);
      if Runs(s, before, visits[n]) then Some(visits[n].at) else before
  }

  // Whether visit `k` makes a run.
  predicate RunsAt(s: Schedule, last: Option<int>, visits: seq<Visit>, k: nat)
    requires !HasProblem(s) && k < |visits|
  {
    Runs(s, Recorded(s, last, visits[..k]), visits[k])
  }

  // No visit from k on makes a run.
  ghost predicate NoneRuns(s: Schedule, last: Option<int>, visits: seq<Visit>, k: nat)
    requires !HasProblem(s)
  {
    forall j: nat :: k <= j < |visits| ==> !RunsAt(s, last, visits, j)
  }

  lemma {:induction false} RecordStands(s: Schedule, last: Option<int>, visits: seq<Visit>, k: nat)
    requires !HasProblem(s) && k <= |visits| && NoneRuns(s, last, visits, k)
    ensures Recorded(s, last, visits) == Recorded(s, last, visits[..k])
    decreases |visits|
  {
    if k == |visits| {
      assert visits[..k] == visits;
    } else {
      var n := |visits| - 1;
      forall j: nat | k <= j < n ensures !RunsAt(s, last, visits[..n], j) { SameBefore(s, last, visits, n, j); }
      RecordStands(s, last, visits[..n], k);
      assert visits[..n][..k] == visits[..k] && !RunsAt(s, last, visits, n);
    }
  }

  // The record is the instant of the last visit that made a run, or what it was when none has.
  lemma {:induction false} RecordedLast(s: Schedule, last: Option<int>, visits: seq<Visit>, k: nat)
    requires !HasProblem(s) && k <= |visits| && NoneRuns(s, last, visits, k)
    ensures k == 0 ==> Recorded(s, last, visits) == last
    ensures k > 0 && RunsAt(s, last, visits, k - 1) ==> Recorded(s, last, visits) == Some(visits[k - 1].at)
  {
    RecordStands(s, last, visits, k);
    if k > 0 { assert visits[..k][..k - 1] == visits[..k - 1]; }
  }

  lemma {:induction false} SameBefore(s: Schedule, last: Option<int>, visits: seq<Visit>, n: nat, k: nat)
    requires !HasProblem(s) && k < n <= |visits|
    ensures RunsAt(s, last, visits[..n], k) <==> RunsAt(s, last, visits, k)
  {
    assert visits[..n][..k] == visits[..k];
  }

  predicate Reaches(last: Option<int>, t: int) { last.Some? && last.value >= t }

  // After visit `from`, "back up now" is recorded at an instant before `due`: taken before the lock,
  // and stamped after a later run.
  ghost predicate SetBack(visits: seq<Visit>, from: int, due: int) {
    exists m :: 0 <= m < |visits| && from < m && visits[m].Manual? && visits[m].at < due
  }

  // The recorded run has reached a due instant: it did before, or at some visit, and was not set back
  // since.
  ghost predicate Held(last: Option<int>, visits: seq<Visit>, due: int) {
    || (Reaches(last, due) && !SetBack(visits, -1, due))
    || (exists i :: 0 <= i < |visits| && visits[i].at >= due && !SetBack(visits, i, due))
  }

  lemma {:induction false} SetBackNext(visits: seq<Visit>, v: Visit, from: int, due: int)
    requires from < |visits|
    ensures SetBack(visits + [v], from, due) <==> SetBack(visits, from, due) || (v.Manual? && v.at < due)
  {
    var more := visits + [v];
    assert more[|visits|] == v && forall m :: 0 <= m < |visits| ==> more[m] == visits[m];
  }

  lemma {:induction false} HeldNext(last: Option<int>, visits: seq<Visit>, v: Visit, due: int)
    ensures Held(last, visits + [v], due) <==> v.at >= due || (v.Poll? && Held(last, visits, due))
  {
    var more, n := visits + [v], |visits|;
    assert more[n] == v && forall i :: 0 <= i < n ==> more[i] == visits[i];
    SetBackNext(visits, v, -1, due);
    forall i | 0 <= i < n ensures SetBack(more, i, due) <==> SetBack(visits, i, due) || (v.Manual? && v.at < due) {
      SetBackNext(visits, v, i, due);
    }
    if v.at >= due { assert !SetBack(more, n, due); }
    if i :| 0 <= i < n && visits[i].at >= due && !SetBack(visits, i, due) {
      assert more[i].at >= due && (SetBack(more, i, due) <==> v.Manual? && v.at < due);
    }
  }

  // Over every run of visits, stamped with any instants: what the record has reached.
  lemma {:induction false} ReachedByVisit(s: Schedule, last: Option<int>, visits: seq<Visit>, due: int)
    requires !HasProblem(s) && s.enabled && IsDueInstant(s, due)
    ensures Reaches(Recorded(s, last, visits), due) <==> Held(last, visits, due)
    decreases |visits|
  {
    if visits != [] {
      var n := |visits| - 1;
      var v := visits[n];
      ReachedByVisit(s, last, visits[..n], due);
      assert visits == visits[..n] + [v];
      HeldNext(last, visits[..n], v, due);
      assert v.at >= due ==> LastDue(s, v.at) >= due;
    }
  }

  // A poll runs exactly when the instant it is due for is not held: neither by the run recorded
  // before, nor by any earlier visit.
  lemma {:induction false} PollRunsOnce(s: Schedule, last: Option<int>, visits: seq<Visit>, k: nat)
    requires !HasProblem(s) && s.enabled && k < |visits| && visits[k].Poll?
    ensures RunsAt(s, last, visits, k) <==> !Held(last, visits[..k], LastDue(s, visits[k].at))
  {
    ReachedByVisit(s, last, visits[..k], LastDue(s, visits[k].at));
  }

  // Switched off, a schedule is run by hand only.
  lemma {:induction false} OffByHandOnly(s: Schedule, last: Option<int>, visits: seq<Visit>, k: nat)
    requires !HasProblem(s) && !s.enabled && k < |visits|
    ensures RunsAt(s, last, visits, k) <==> visits[k].Manual?
  {
  }

  ghost predicate InWindow(s: Schedule, visits: seq<Visit>, k: nat, due: int)
    requires !HasProblem(s)
  {
    k < |visits| && LastDue(s, visits[k].at) == due
  }

  // A due window is not missed: with a visit in it, and nothing recorded that reached it before, the
  // first visit from its instant on makes a run, in the window itself unless that visit is past it.
  lemma {:induction false} WindowGetsItsRun(s: Schedule, last: Option<int>, visits: seq<Visit>, due: int, some: nat)
      returns (first: nat)
    requires !HasProblem(s) && s.enabled && InWindow(s, visits, some, due) && !Reaches(last, due)
    ensures first <= some && visits[first].at >= due && RunsAt(s, last, visits, first)
    ensures forall i :: 0 <= i < first ==> visits[i].at < due
    ensures (forall i :: 0 <= i < some ==> LastDue(s, visits[i].at) <= due) ==> InWindow(s, visits, first, due)
  {
    first := 0;
    while visits[first].at < due
      invariant first <= some && forall i :: 0 <= i < first ==> visits[i].at < due
      decreases some - first
    {
      assert first != some;
      first := first + 1;
    }
    assert LastDue(s, visits[first].at) >= due;
    ReachedByVisit(s, last, visits[..first], due);
    assert forall i :: 0 <= i < first ==> visits[..first][i] == visits[i];
    assert !Held(last, visits[..first], due);
  }

  // A second run comes only of a record set back: when a poll of the window runs although an earlier
  // visit had reached it, a "back up now" between the two was stamped before the window began.
  lemma {:induction false} SecondRunIsSetBack(s: Schedule, last: Option<int>, visits: seq<Visit>, due: int, j: nat, k: nat)
      returns (m: nat)
    requires !HasProblem(s) && s.enabled && j < k && InWindow(s, visits, k, due)
    requires visits[k].Poll? && RunsAt(s, last, visits, k) && visits[j].at >= due
    ensures j < m < k && visits[m].Manual? && visits[m].at < due
  {
    var early := visits[..k];
    PollRunsOnce(s, last, visits, k);
    assert early[j] == visits[j] && SetBack(early, j, due);
    m :| 0 <= m < k && j < m && early[m].Manual? && early[m].at < due;
    assert early[m] == visits[m];
  }

  ghost predicate WindowRuns(s: Schedule, last: Option<int>, visits: seq<Visit>, due: int)
    requires !HasProblem(s)
  {
    exists k: nat :: InWindow(s, visits, k, due) && RunsAt(s, last, visits, k)
  }

  // Over every run of visits: a window has a run in it exactly when some visit in it is by hand, or
  // finds the window's instant not reached.
  lemma {:induction false} WindowRunsExactly(s: Schedule, last: Option<int>, visits: seq<Visit>, due: int)
    requires !HasProblem(s) && s.enabled
    ensures WindowRuns(s, last, visits, due) <==>
      exists k: nat :: InWindow(s, visits, k, due) && (visits[k].Manual? || !Held(last, visits[..k], due))
  {
    forall k: nat | InWindow(s, visits, k, due)
      ensures RunsAt(s, last, visits, k) <==> visits[k].Manual? || !Held(last, visits[..k], due)
    {
      if visits[k].Poll? { PollRunsOnce(s, last, visits, k); }
    }
  }

  // No "back up now" stamped before the instant is recorded after a visit from it on.
  ghost predicate NeverSetBack(visits: seq<Visit>, due: int) {
    forall i :: 0 <= i < |visits| && visits[i].at >= due ==> !SetBack(visits, i, due)
  }

  lemma {:induction false} SetBackSooner(visits: seq<Visit>, k: nat, from: int, due: int)
    requires k <= |visits|
    ensures SetBack(visits[..k], from, due) ==> SetBack(visits, from, due)
  {
    assert forall m :: 0 <= m < k ==> visits[..k][m] == visits[m];
  }

  // The first visit in a window.
  ghost predicate FirstIn(s: Schedule, visits: seq<Visit>, first: nat, due: int)
    requires !HasProblem(s)
  {
    InWindow(s, visits, first, due) && forall i: nat :: i < first ==> !InWindow(s, visits, i, due)
  }

  // Where nothing is set back, and no run was recorded that reached the window before: a poll of the
  // window runs exactly when it is the first visit in it, and no visit past the window came before it.
  lemma {:induction false} OnlyFirstPollRuns(s: Schedule, last: Option<int>, visits: seq<Visit>, due: int, first: nat, k: nat)
    requires !HasProblem(s) && s.enabled && FirstIn(s, visits, first, due) && !Reaches(last, due)
    requires NeverSetBack(visits, due) && InWindow(s, visits, k, due) && visits[k].Poll?
    ensures RunsAt(s, last, visits, k) <==> k == first && forall i :: 0 <= i < first ==> visits[i].at < due
  {
    var early := visits[..k];
    PollRunsOnce(s, last, visits, k);
    forall i | 0 <= i < k && visits[i].at >= due ensures Held(last, early, due) {
      assert early[i] == visits[i];
      SetBackSooner(visits, k, i, due);
    }
    assert k >= first && visits[first].at >= due;
    if k == first && forall i :: 0 <= i < first ==> visits[i].at < due {
      assert forall i :: 0 <= i < k ==> early[i] == visits[i];
    }
  }

  // So such a window gets its run exactly when a visit in it is by hand or every visit before its
  // first is stamped before it; and it gets no other but by hand.
  lemma {:induction false} OneRunPerWindow(s: Schedule, last: Option<int>, visits: seq<Visit>, due: int, first: nat)
    requires !HasProblem(s) && s.enabled && FirstIn(s, visits, first, due) && !Reaches(last, due)
    requires NeverSetBack(visits, due)
    ensures WindowRuns(s, last, visits, due) <==>
      || (exists k: nat :: InWindow(s, visits, k, due) && visits[k].Manual?)
      || (forall i :: 0 <= i < first ==> visits[i].at < due)
    ensures forall k: nat :: InWindow(s, visits, k, due) && RunsAt(s, last, visits, k) ==> k == first || visits[k].Manual?
  {
    forall k: nat | InWindow(s, visits, k, due) && visits[k].Poll?
      ensures RunsAt(s, last, visits, k) <==> k == first && forall i :: 0 <= i < first ==> visits[i].at < due
    {
      OnlyFirstPollRuns(s, last, visits, due, first, k);
    }
    if k: nat :| InWindow(s, visits, k, due) && visits[k].Manual? { assert RunsAt(s, last, visits, k); }
    if forall i :: 0 <= i < first ==> visits[i].at < due { assert RunsAt(s, last, visits, first) || visits[first].Manual?; }
  }

  // A run that leaves a polled window without one. A replica whose clock is a day ahead polls first,
  // and its record satisfies the window that the others poll in.
  lemma {:induction false} WindowMissed()
    ensures var s := DEFAULT_SCHEDULE.(enabled := true);
            var due := 14_400_000;
            var visits := [Poll(due + DAY_MS), Poll(due)];
            && !ScheduleProblem(s) && FirstIn(s, visits, 1, due) && NeverSetBack(visits, due)
            && !WindowRuns(s, None, visits, due)
  {
    var s, due := DEFAULT_SCHEDULE.(enabled := true), 14_400_000;
    var visits := [Poll(due + DAY_MS), Poll(due)];
    assert due / DAY_MS == 0 && DueOn(s, 0) == due && (due + DAY_MS) / DAY_MS == 1;
    assert LastDue(s, due) == due && LastDue(s, due + DAY_MS) == due + DAY_MS;
    OneRunPerWindow(s, None, visits, due, 1);
    assert visits[0].at >= due;
  }

  // A run that gives a window two. At four in the morning the poll takes the night's backup; a "back up now" on
  // a gateway whose clock is a moment behind is recorded after it; the next poll takes the night's
  // backup again.
  lemma {:induction false} TwoRunsInOneWindow()
    ensures var s := DEFAULT_SCHEDULE.(enabled := true);
            var due := 14_400_000;
            var visits := [Poll(due), Manual(due - 1), Poll(due + 1)];
            && !ScheduleProblem(s) && InWindow(s, visits, 0, due) && InWindow(s, visits, 2, due)
            && RunsAt(s, None, visits, 0) && RunsAt(s, None, visits, 2)
  {
    var s, due := DEFAULT_SCHEDULE.(enabled := true), 14_400_000;
    var visits := [Poll(due), Manual(due - 1), Poll(due + 1)];
    assert visits[..2] == [Poll(due), Manual(due - 1)];
    assert visits[..2][..1] == [Poll(due)] && visits[..0] == [];
    assert due / DAY_MS == 0 && DueOn(s, 0) == due;
    assert LastDue(s, due) == due && LastDue(s, due + 1) == due;
    var twice := visits[..2];
    assert Recorded(s, None, twice) == Some(due - 1);
  }
}
