/**
  Quiet hours, workdays and the minute-by-minute scans of the scheduler
  (backend/app/quiet_hours.py, `document_send_time` in backend/app/documents.py).

  An instant is a number of microseconds since the epoch, UTC. A time zone is its UTC offset, in
  microseconds, at every instant; nothing else is assumed about it unless a contract says so.
 */
module QuietHours {
  import opened Wrappers

  type Zone = int -> int

  const MINUTE := 60_000_000
  const DAY := 86_400_000_000
  const HOUR := 3_600_000_000

  /** The guards of the source: inner scan, outer scan, recurrence scan. */
  const MAX_WORKDAY_STEPS := 7 * 24 * 60
  const MAX_QUIET_STEPS := 8 * 24 * 60
  const MAX_RECURRENCE_STEPS := 10

  datatype Quiet = Quiet(start: nat, end: nat) {
    /** Both ends parsed from `HH:MM`. */
    predicate Valid() { start < 1440 && end < 1440 }

    predicate Contains(minuteOfDay: int) {
      if start == end then false
      else if start < end then start <= minuteOfDay < end
      else minuteOfDay >= start || minuteOfDay < end
    }
  }

  /** The quiet hours run from the start clockwise to the end, over midnight if need be. */
  lemma QuietIsClockwise(quiet: Quiet, minuteOfDay: int)
    requires quiet.Valid() && 0 <= minuteOfDay < 1440
    ensures quiet.Contains(minuteOfDay) <==> (minuteOfDay - quiet.start) % 1440 < (quiet.end - quiet.start) % 1440
  {
  }

  datatype ScanError = NoWorkday | ScanExceeded | InvalidWorkdays

  // ---------------------------------------------------------------- local time

  /** The number of the whole minute that holds an instant, and what is left of the instant in it. */
  function MinuteOf(t: int): int { t / 60_000_000 }

  function Remainder(t: int): int { t % 60_000_000 }

  function LocalMinutes(t: int, zone: Zone): int { MinuteOf(t + zone(t)) }

  /** ISO weekday of a day counted from 1970-01-01, a Thursday. */
  function Weekday(day: int): int { (day + 3) % 7 + 1 }

  /** 1970-01-01 was a Thursday, and the days of the week follow each other; Monday is 1 and Sunday 7. */
  lemma WeekdaysFollow(day: int)
    ensures Weekday(0) == 4 && 1 <= Weekday(day) <= 7
    ensures Weekday(day + 1) == if Weekday(day) == 7 then 1 else Weekday(day) + 1
    ensures Weekday(day + 7) == Weekday(day)
  {
    assert (day + 3 + 1) % 7 == if (day + 3) % 7 == 6 then 0 else (day + 3) % 7 + 1;
    assert (day + 3 + 7) % 7 == (day + 3) % 7;
  }

  predicate InQuietPeriod(t: int, zone: Zone, quiet: Quiet) {
    quiet.Contains(LocalMinutes(t, zone) % 1440)
  }

  predicate IsWorkday(t: int, zone: Zone, workdays: seq<int>) {
    workdays != [] && Weekday(LocalMinutes(t, zone) / 1440) in workdays
  }

  /** An empty workday list means that only quiet hours count. */
  predicate Allowed(t: int, zone: Zone, quiet: Quiet, workdays: seq<int>) {
    !InQuietPeriod(t, zone, quiet) && (workdays == [] || IsWorkday(t, zone, workdays))
  }

  // Whole minutes, addressed by their number.

  function At(m: int): int { m * 60_000_000 }

  function Local(m: int, zone: Zone): int { m + MinuteOf(zone(At(m))) }

  predicate Work(m: int, zone: Zone, workdays: seq<int>) {
    workdays == [] || IsWorkday(At(m), zone, workdays)
  }

  predicate Free(m: int, zone: Zone, quiet: Quiet, workdays: seq<int>) {
    Allowed(At(m), zone, quiet, workdays)
  }

  /** A list that names at least one real weekday (or no constraint at all). */
  ghost predicate SomeWeekday(workdays: seq<int>) {
    workdays == [] || exists d :: 1 <= d <= 7 && d in workdays
  }

  // ---------------------------------------------------------------- tame zones

  /** How far ahead of a scan the offset has to be known, in minutes. */
  const WINDOW := 4 * 7 * 1440

  /** From minute `c` on, the offset is `before` and jumps once, by at most two hours, to `after`. */
  ghost predicate OneJump(zone: Zone, c: int, jump: int, before: int, after: int) {
    && -2 * HOUR <= before - after <= 2 * HOUR
    && forall m :: c <= m < c + WINDOW ==> zone(At(m)) == if m < jump then before else after
  }

  ghost predicate Tame(zone: Zone, c: int) {
    exists jump, before, after :: OneJump(zone, c, jump, before, after)
  }

  ghost predicate Fixed(zone: Zone, lo: int, hi: int, offset: int) {
    forall m :: lo <= m < hi ==> zone(At(m)) == offset
  }

  ghost predicate Barred(zone: Zone, quiet: Quiet, workdays: seq<int>, lo: int, hi: int) {
    forall m :: lo <= m < hi ==> !Free(m, zone, quiet, workdays)
  }

  /** Among any seven consecutive days there is a workday. */
  lemma WorkdayWithinAWeek(first: int, workdays: seq<int>) returns (day: int)
    requires SomeWeekday(workdays) && workdays != []
    ensures first <= day < first + 7 && Weekday(day) in workdays
  {
    var d :| 1 <= d <= 7 && d in workdays;
    day := first + (d - 1 - (first + 3) % 7 + 7) % 7;
    assert Weekday(day) == d;
  }

  /** Each local workday has an allowed minute: the one at which the quiet hours end. */
  lemma EndOfQuietIsFree(day: int, m: int, zone: Zone, quiet: Quiet, workdays: seq<int>)
    requires quiet.Valid()
    requires workdays == [] || Weekday(day) in workdays
    requires Local(m, zone) == day * 1440 + quiet.end
    ensures Free(m, zone, quiet, workdays)
  {
    assert Local(m, zone) / 1440 == day && Local(m, zone) % 1440 == quiet.end;
  }

  /** With a fixed offset no week passes without an allowed minute. */
  lemma FixedFindsWithinAWeek(zone: Zone, quiet: Quiet, workdays: seq<int>, lo: int, hi: int, offset: int)
    requires quiet.Valid() && SomeWeekday(workdays)
    requires Fixed(zone, lo, hi, offset) && Barred(zone, quiet, workdays, lo, hi)
    ensures hi - lo < 7 * 1440
  {
    if hi - lo >= 7 * 1440 {
      var o := MinuteOf(offset);
      // the first day whose end-of-quiet minute is not before lo
      var first := (lo + o - quiet.end + 1439) / 1440;
      var day := first;
      if workdays != [] {
        day := WorkdayWithinAWeek(first, workdays);
      }
      var m := day * 1440 + quiet.end - o;
      assert lo <= m < hi;
      EndOfQuietIsFree(day, m, zone, quiet, workdays);
    }
  }

  /** With a jump of at most two hours there still is a workday among the next 7 * 1440 minutes. */
  lemma JumpFindsWorkday(zone: Zone, workdays: seq<int>, c: int, m: int) returns (k: nat)
    requires SomeWeekday(workdays) && workdays != []
    requires Tame(zone, c) && c <= m && m + 7 * 1440 <= c + WINDOW
    ensures k < 7 * 1440 && Work(m + k, zone, workdays)
  {
    var jump, before, after :| OneJump(zone, c, jump, before, after);
    var low := if before <= after then MinuteOf(before) else MinuteOf(after);
    var first := (m + low + 1439) / 1440;
    var day := WorkdayWithinAWeek(first, workdays);
    k := day * 1440 - low - m;
    assert zone(At(m + k)) == before || zone(At(m + k)) == after;
    assert Local(m + k, zone) / 1440 == day;
  }

  // ---------------------------------------------------------------- counting scanned minutes

  /** The number of workday minutes in [lo, hi): what the guard of the outer scan counts. */
  ghost function WorkMinutes(zone: Zone, workdays: seq<int>, lo: int, hi: int): nat
    decreases hi - lo
  {
    if lo >= hi then 0
    else WorkMinutes(zone, workdays, lo, hi - 1) + (if Work(hi - 1, zone, workdays) then 1 else 0)
  }

  lemma {:induction false} WorkMinutesSplit(zone: Zone, workdays: seq<int>, lo: int, mid: int, hi: int)
    requires lo <= mid <= hi
    ensures WorkMinutes(zone, workdays, lo, hi)
         == WorkMinutes(zone, workdays, lo, mid) + WorkMinutes(zone, workdays, mid, hi)
    decreases hi - mid
  {
    if mid < hi {
      WorkMinutesSplit(zone, workdays, lo, mid, hi - 1);
    }
  }

  lemma {:induction false} WorkMinutesBound(zone: Zone, workdays: seq<int>, lo: int, hi: int)
    requires lo <= hi
    ensures WorkMinutes(zone, workdays, lo, hi) <= hi - lo
    ensures (forall m :: lo <= m < hi ==> !Work(m, zone, workdays)) ==> WorkMinutes(zone, workdays, lo, hi) == 0
    decreases hi - lo
  {
    if lo < hi {
      WorkMinutesBound(zone, workdays, lo, hi - 1);
    }
  }

  /**
    A fixed-offset stretch without an allowed minute contains no complete workday, so its workday
    minutes lie in its first and its last local day.
   */
  lemma BarredWorkMinutes(zone: Zone, quiet: Quiet, workdays: seq<int>, lo: int, hi: int, offset: int)
    requires quiet.Valid() && lo <= hi
    requires Fixed(zone, lo, hi, offset) && Barred(zone, quiet, workdays, lo, hi)
    ensures WorkMinutes(zone, workdays, lo, hi) <= 2 * 1440
  {
    var o := MinuteOf(offset);
    var firstMidnight := ((lo + o) / 1440 + 1) * 1440 - o;
    var lastMidnight := (hi + o) / 1440 * 1440 - o;
    if firstMidnight > lastMidnight {
      WorkMinutesBound(zone, workdays, lo, hi);
    } else {
      forall m | firstMidnight <= m < lastMidnight ensures !Work(m, zone, workdays) {
        if Work(m, zone, workdays) {
          var day := (m + o) / 1440;
          var free := day * 1440 + quiet.end - o;
          assert firstMidnight <= free < lastMidnight;
          EndOfQuietIsFree(day, free, zone, quiet, workdays);
        }
      }
      WorkMinutesSplit(zone, workdays, lo, firstMidnight, hi);
      WorkMinutesSplit(zone, workdays, firstMidnight, lastMidnight, hi);
      WorkMinutesBound(zone, workdays, lo, firstMidnight);
      WorkMinutesBound(zone, workdays, firstMidnight, lastMidnight);
      WorkMinutesBound(zone, workdays, lastMidnight, hi);
    }
  }

  /** The guard bound: a tame scan that has found nothing is short, in both measures. */
  lemma TameScanIsShort(zone: Zone, quiet: Quiet, workdays: seq<int>, c: int, hi: int)
    requires quiet.Valid() && SomeWeekday(workdays) && Tame(zone, c)
    requires c <= hi && Barred(zone, quiet, workdays, c, hi)
    ensures hi - c < 2 * 7 * 1440
    ensures WorkMinutes(zone, workdays, c, hi) <= 4 * 1440
  {
    var jump, before, after :| OneJump(zone, c, jump, before, after);
    var end := if hi <= c + 2 * 7 * 1440 then hi else c + 2 * 7 * 1440;
    var mid := if jump < c then c else if jump > end then end else jump;
    FixedFindsWithinAWeek(zone, quiet, workdays, c, mid, before);
    FixedFindsWithinAWeek(zone, quiet, workdays, mid, end, after);
    BarredWorkMinutes(zone, quiet, workdays, c, mid, before);
    BarredWorkMinutes(zone, quiet, workdays, mid, end, after);
    WorkMinutesSplit(zone, workdays, c, mid, end);
  }

  // ---------------------------------------------------------------- the scans

  /**
    `_apply_workdays`, from the whole minute numbered `start`. It returns the first workday minute,
    `next`, and raises exactly when none of the next 7 * 24 * 60 minutes is on a workday.
   */
  method ApplyWorkdays(candidate0: int, workdays: seq<int>, zone: Zone, ghost start: int)
    returns (r: Result<int, ScanError>, ghost next: int)
    requires workdays != [] && candidate0 == At(start)
    ensures r.Success? <==> exists m :: start <= m <= start + MAX_WORKDAY_STEPS && Work(m, zone, workdays)
    ensures r.Success? ==>
      && r.value == At(next) && start <= next && Work(next, zone, workdays)
      && forall m :: start <= m < next ==> !Work(m, zone, workdays)
    ensures r.Failure? ==> r.error == NoWorkday
  {
    var candidate := candidate0;
    next := start;
    var guard := 0;
    while !IsWorkday(candidate, zone, workdays)
      invariant 0 <= guard <= MAX_WORKDAY_STEPS && next == start + guard
      invariant candidate == At(next)
      invariant forall m :: start <= m < next ==> !Work(m, zone, workdays)
      decreases MAX_WORKDAY_STEPS - guard
    {
      assert !Work(next, zone, workdays);
      candidate := candidate + MINUTE;
      next := next + 1;
      guard := guard + 1;
      if guard > MAX_WORKDAY_STEPS {
        return Failure(NoWorkday), next;
      }
    }
    assert Work(next, zone, workdays);
    r := Success(candidate);
  }

  /** Minutes off the workdays neither free the scan nor count towards its guard. */
  lemma SkipKeepsBarred(zone: Zone, quiet: Quiet, workdays: seq<int>, c: int, m: int, next: int)
    requires c <= m <= next && Barred(zone, quiet, workdays, c, m)
    requires forall i :: m <= i < next ==> !Work(i, zone, workdays)
    ensures Barred(zone, quiet, workdays, c, next)
    ensures WorkMinutes(zone, workdays, c, next) == WorkMinutes(zone, workdays, c, m)
  {
    forall i | c <= i < next ensures !Free(i, zone, quiet, workdays) {
      if m <= i {
        assert !Work(i, zone, workdays);
      }
    }
    WorkMinutesSplit(zone, workdays, c, m, next);
    WorkMinutesBound(zone, workdays, m, next);
  }

  /** A quiet workday minute extends the barred stretch and its count by one. */
  lemma StepKeepsBarred(zone: Zone, quiet: Quiet, workdays: seq<int>, c: int, m: int)
    requires c <= m && Barred(zone, quiet, workdays, c, m)
    requires Work(m, zone, workdays) && InQuietPeriod(At(m), zone, quiet)
    ensures Barred(zone, quiet, workdays, c, m + 1)
    ensures WorkMinutes(zone, workdays, c, m + 1) == WorkMinutes(zone, workdays, c, m) + 1
  {
  }

  function FloorMinute(t: int): int { t - Remainder(t) }

  function CeilMinute(t: int): (c: int)
    ensures t <= c < t + MINUTE && Remainder(c) == 0
  {
    if Remainder(t) == 0 then t else FloorMinute(t) + MINUTE
  }

  /** The first whole minute at or after `now` that is allowed. */
  ghost predicate FirstFreeMinute(r: int, now: int, zone: Zone, quiet: Quiet, workdays: seq<int>) {
    && r >= now && Remainder(r) == 0 && Allowed(r, zone, quiet, workdays)
    && forall m :: MinuteOf(CeilMinute(now)) <= m < MinuteOf(r) ==> !Free(m, zone, quiet, workdays)
  }

  /**
    The step `if workdays: candidate = _apply_workdays(...)` of a scan that began at minute `c` and
    stands at minute `m`; `next` is the minute it arrives at.
   */
  method SkipToWorkday(candidate: int, workdays: seq<int>, zone: Zone, quiet: Quiet, ghost c: int, ghost m: int)
    returns (r: Result<int, ScanError>, ghost next: int)
    requires candidate == At(m) && c <= m && Barred(zone, quiet, workdays, c, m)
    ensures r.Success? ==>
      && r.value == At(next) && m <= next && Work(next, zone, workdays)
      && Barred(zone, quiet, workdays, c, next)
      && WorkMinutes(zone, workdays, c, next) == WorkMinutes(zone, workdays, c, m)
    ensures SomeWeekday(workdays) && Tame(zone, c) && m + 7 * 1440 <= c + WINDOW ==> r.Success?
    ensures r.Failure? ==> r.error == NoWorkday
    ensures !SomeWeekday(workdays) ==> r.Failure?
  {
    next := m;
    if workdays == [] {
      return Success(candidate), m;
    }
    if SomeWeekday(workdays) && Tame(zone, c) && m + 7 * 1440 <= c + WINDOW {
      ghost var k := JumpFindsWorkday(zone, workdays, c, m);
    }
    r, next := ApplyWorkdays(candidate, workdays, zone, m);
    if r.Success? {
      SkipKeepsBarred(zone, quiet, workdays, c, m, next);
    }
  }

  /**
    `next_allowed_time`. Whatever the zone does, a returned time is the first allowed whole minute.
    While the zone makes at most one jump of at most two hours, a guard fires exactly when the list
    of workdays names no weekday.
   */
  method NextAllowedTime(now: int, zone: Zone, quiet: Quiet, workdays: seq<int>)
    returns (r: Result<int, ScanError>)
    requires quiet.Valid()
    ensures r.Success? ==> FirstFreeMinute(r.value, now, zone, quiet, workdays)
    ensures SomeWeekday(workdays) && Tame(zone, MinuteOf(CeilMinute(now))) ==> r.Success?
    ensures r.Failure? ==> r.error != InvalidWorkdays
    ensures !SomeWeekday(workdays) ==> r == Failure(NoWorkday)
  {
    var candidate := FloorMinute(now);
    if now != candidate {
      candidate := candidate + MINUTE;
    }
    ghost var c := MinuteOf(CeilMinute(now));
    assert candidate == At(c);
    ghost var tame := SomeWeekday(workdays) && Tame(zone, c);
    ghost var m;
    r, m := SkipToWorkday(candidate, workdays, zone, quiet, c, c);
    if r.Failure? {
      return;
    }
    candidate := r.value;
    var guard := 0;
    while InQuietPeriod(candidate, zone, quiet)
      invariant candidate == At(m) && c <= m && Work(m, zone, workdays)
      invariant Barred(zone, quiet, workdays, c, m)
      invariant 0 <= guard <= MAX_QUIET_STEPS && guard <= WorkMinutes(zone, workdays, c, m)
      decreases MAX_QUIET_STEPS - guard
    {
      StepKeepsBarred(zone, quiet, workdays, c, m);
      candidate := candidate + MINUTE;
      if tame {
        TameScanIsShort(zone, quiet, workdays, c, m + 1);
      }
      r, m := SkipToWorkday(candidate, workdays, zone, quiet, c, m + 1);
      if r.Failure? {
        return;
      }
      candidate := r.value;
      guard := guard + 1;
      if guard > MAX_QUIET_STEPS {
        return Failure(ScanExceeded);
      }
    }
    r := Success(candidate);
  }

  // ---------------------------------------------------------------- instants between the minutes

  /** The offset is a whole number of minutes and changes only at whole minutes. */
  ghost predicate WholeMinutes(zone: Zone) {
    forall t :: Remainder(zone(t)) == 0 && zone(t) == zone(FloorMinute(t))
  }

  /** The first instant, to the microsecond, at or after `from` that is allowed. */
  ghost predicate FirstFreeInstant(r: int, from: int, zone: Zone, quiet: Quiet, workdays: seq<int>) {
    && r >= from && Allowed(r, zone, quiet, workdays)
    && forall t :: from <= t < r ==> !Allowed(t, zone, quiet, workdays)
  }

  lemma SameMinuteSameVerdict(t: int, zone: Zone, quiet: Quiet, workdays: seq<int>)
    requires WholeMinutes(zone)
    ensures Allowed(t, zone, quiet, workdays) == Free(MinuteOf(t), zone, quiet, workdays)
  {
    assert FloorMinute(t) == At(MinuteOf(t));
    assert LocalMinutes(t, zone) == LocalMinutes(FloorMinute(t), zone);
  }

  /** From a barred instant, the first free minute is the first free instant. */
  lemma FreeMinuteIsFirstInstant(r: int, from: int, zone: Zone, quiet: Quiet, workdays: seq<int>)
    requires WholeMinutes(zone) && !Allowed(from, zone, quiet, workdays)
    requires FirstFreeMinute(r, from, zone, quiet, workdays)
    ensures FirstFreeInstant(r, from, zone, quiet, workdays)
  {
    SameMinuteSameVerdict(from, zone, quiet, workdays);
    forall t | from <= t < r ensures !Allowed(t, zone, quiet, workdays) {
      SameMinuteSameVerdict(t, zone, quiet, workdays);
      assert MinuteOf(t) == MinuteOf(from) || MinuteOf(CeilMinute(from)) <= MinuteOf(t) < MinuteOf(r);
    }
  }

  function Max(a: int, b: int): (r: int)
    ensures a <= r && b <= r && (r == a || r == b)
  {
    if a >= b then a else b
  }

  /** `effective_send_time`: the first instant outside quiet hours, not before now or the plan. */
  method EffectiveSendTime(scheduledAt: int, now: int, zone: Zone, quiet: Quiet)
    returns (r: Result<int, ScanError>)
    requires quiet.Valid()
    ensures r.Success? && WholeMinutes(zone) ==> FirstFreeInstant(r.value, Max(now, scheduledAt), zone, quiet, [])
    ensures
      if InQuietPeriod(Max(now, scheduledAt), zone, quiet)
      then r.Success? ==> FirstFreeMinute(r.value, Max(now, scheduledAt), zone, quiet, [])
      else r == Success(Max(now, scheduledAt))
    ensures Tame(zone, MinuteOf(CeilMinute(Max(now, scheduledAt)))) ==> r.Success?
  {
    if scheduledAt <= now {
      if !InQuietPeriod(now, zone, quiet) {
        return Success(now);
      }
      r := NextAllowedTime(now, zone, quiet, []);
      if r.Success? && WholeMinutes(zone) {
        FreeMinuteIsFirstInstant(r.value, now, zone, quiet, []);
      }
      return;
    }
    if InQuietPeriod(scheduledAt, zone, quiet) {
      r := NextAllowedTime(scheduledAt, zone, quiet, []);
      if r.Success? && WholeMinutes(zone) {
        FreeMinuteIsFirstInstant(r.value, scheduledAt, zone, quiet, []);
      }
      return;
    }
    r := Success(scheduledAt);
  }

  /** `document_send_time`: the same with the workdays of the schedule, which must not be empty. */
  method DocumentSendTime(scheduledAt: Option<int>, now: int, zone: Zone, quiet: Quiet, workdays: seq<int>)
    returns (r: Result<int, ScanError>)
    requires quiet.Valid()
    ensures r == Failure(InvalidWorkdays) <==> workdays == []
    ensures
      var at := if scheduledAt.Some? then Max(now, scheduledAt.value) else now;
      && (workdays != [] ==>
            if Allowed(at, zone, quiet, workdays) then r == Success(at)
            else r.Success? ==> FirstFreeMinute(r.value, at, zone, quiet, workdays))
      && (r.Success? && WholeMinutes(zone) ==> FirstFreeInstant(r.value, at, zone, quiet, workdays))
      && (workdays != [] && !SomeWeekday(workdays) ==> r == Failure(NoWorkday))
      && (Tame(zone, MinuteOf(CeilMinute(at))) ==> (r.Failure? <==> workdays == [] || !SomeWeekday(workdays)))
  {
    var at := Max(now, if scheduledAt.Some? then scheduledAt.value else now);
    if workdays == [] {
      return Failure(InvalidWorkdays);
    }
    if IsWorkday(at, zone, workdays) && !InQuietPeriod(at, zone, quiet) {
      return Success(at);
    }
    r := NextAllowedTime(at, zone, quiet, workdays);
    if r.Success? && WholeMinutes(zone) {
      FreeMinuteIsFirstInstant(r.value, at, zone, quiet, workdays);
    }
  }

  /** Rescheduling to the computed time changes nothing, at that time or any earlier one. */
  method EffectiveTimeIsFixed(scheduledAt: int, now: int, later: int, zone: Zone, quiet: Quiet)
    returns (first: Result<int, ScanError>, second: Result<int, ScanError>)
    requires quiet.Valid()
    requires Tame(zone, MinuteOf(CeilMinute(Max(now, scheduledAt))))
    ensures first.Success? && (later <= first.value ==> second == first)
  {
    first := EffectiveSendTime(scheduledAt, now, zone, quiet);
    second := EffectiveSendTime(first.value, later, zone, quiet);
    if later <= first.value {
      assert !InQuietPeriod(first.value, zone, quiet);
    }
  }

  /** The same for document messages. */
  method DocumentTimeIsFixed(scheduledAt: Option<int>, now: int, later: int, zone: Zone, quiet: Quiet, workdays: seq<int>)
    returns (first: Result<int, ScanError>, second: Result<int, ScanError>)
    requires quiet.Valid()
    ensures first.Success? && later <= first.value ==> second == first
  {
    first := DocumentSendTime(scheduledAt, now, zone, quiet, workdays);
    second := first;
    if first.Success? {
      second := DocumentSendTime(Some(first.value), later, zone, quiet, workdays);
      if later <= first.value {
        assert Allowed(first.value, zone, quiet, workdays);
      }
    }
  }

  // ---------------------------------------------------------------- on the calendar

  /** The local day of an instant, counted from 1970-01-01. */
  function LocalDay(t: int, zone: Zone): int { (t + zone(t)) / DAY }

  /** Microseconds of the local day that have gone by. */
  function LocalTime(t: int, zone: Zone): int { (t + zone(t)) % DAY }

  lemma ClockOfInstant(t: int, zone: Zone)
    ensures LocalMinutes(t, zone) / 1440 == LocalDay(t, zone)
    ensures LocalMinutes(t, zone) % 1440 == LocalTime(t, zone) / MINUTE
  {
    var u := t + zone(t);
    var minute, day := u / MINUTE, u / DAY;
    assert u == DAY * day + u % DAY && 0 <= u % DAY < DAY;
    var rest := u % DAY / MINUTE;
    assert u % DAY == MINUTE * rest + u % DAY % MINUTE;
    assert minute == 1440 * day + rest;
  }

  /**
    What may be sent when, on the clock: with Monday to Friday as workdays nothing on the two days
    of each week that are a Saturday and a Sunday, and on the others everything outside quiet hours,
    which run by local time clockwise from their start to their end.
   */
  lemma AllowedOnTheClock(t: int, zone: Zone, quiet: Quiet)
    requires quiet.Valid()
    ensures Allowed(t, zone, quiet, [1, 2, 3, 4, 5]) <==>
      && LocalDay(t, zone) % 7 != 2 && LocalDay(t, zone) % 7 != 3   // 1970-01-03 and 1970-01-04
      && (LocalTime(t, zone) / MINUTE - quiet.start) % 1440 >= (quiet.end - quiet.start) % 1440
  {
    ClockOfInstant(t, zone);
    QuietIsClockwise(quiet, LocalMinutes(t, zone) % 1440);
    var day := LocalDay(t, zone);
    assert Weekday(day) in [1, 2, 3, 4, 5] <==> 1 <= Weekday(day) <= 5;
  }

  /** A document message on the Monday-to-Friday schedule never goes out on a local Saturday or Sunday. */
  method WeekendsAreFree(scheduledAt: Option<int>, now: int, zone: Zone, quiet: Quiet) returns (r: Result<int, ScanError>)
    requires quiet.Valid()
    ensures r.Success? ==> LocalDay(r.value, zone) % 7 != 2 && LocalDay(r.value, zone) % 7 != 3
    ensures Tame(zone, MinuteOf(CeilMinute(if scheduledAt.Some? then Max(now, scheduledAt.value) else now))) ==> r.Success?
  {
    r := DocumentSendTime(scheduledAt, now, zone, quiet, [1, 2, 3, 4, 5]);
    assert 1 in [1, 2, 3, 4, 5];
    if r.Success? {
      assert Allowed(r.value, zone, quiet, [1, 2, 3, 4, 5]);
      ClockOfInstant(r.value, zone);
    }
  }

  /** The hour `h` of day `d` on the local clock of a zone that is `offset` hours ahead. */
  function Clock(d: int, h: int, offset: int): int { d * DAY + (h - offset) * HOUR }

  /** An instant of a zone that stays `offset` hours ahead. */
  lemma ClockIsLocal(d: int, h: int, offset: int, t: int)
    requires 0 <= h < 24 && Clock(d, h, offset) <= t < Clock(d, h, offset) + HOUR
    ensures LocalMinutes(t, _ => offset * HOUR) / 1440 == d
    ensures 60 * h <= LocalMinutes(t, _ => offset * HOUR) % 1440 < 60 * h + 60
  {
    var zone := _ => offset * HOUR;
    ClockOfInstant(t, zone);
    var u := t + zone(t);
    assert d * DAY + h * HOUR <= u < d * DAY + (h + 1) * HOUR;
    assert u / DAY == d && u % DAY == u - d * DAY;
  }

  /**
    Saturday 1970-01-03, ten o'clock, three hours ahead of UTC, quiet from ten in the evening to eight
    in the morning, workdays Monday to Friday: the message waits for Monday, eight o'clock local time.
   */
  method SaturdayWaitsForMonday() returns (r: Result<int, ScanError>)
    ensures r == Success(Clock(4, 8, 3))
  {
    var zone: Zone := _ => 3 * HOUR;
    var quiet := Quiet(22 * 60, 8 * 60);
    var now, monday := Clock(2, 10, 3), Clock(4, 8, 3);
    r := DocumentSendTime(None, now, zone, quiet, [1, 2, 3, 4, 5]);
    assert Weekday(2) == 6 && Weekday(3) == 7 && Weekday(4) == 1;
    assert OneJump(zone, MinuteOf(CeilMinute(now)), 0, 3 * HOUR, 3 * HOUR);
    assert 1 in [1, 2, 3, 4, 5];
    ClockIsLocal(4, 8, 3, monday);
    forall t | now <= t < monday ensures !Allowed(t, zone, quiet, [1, 2, 3, 4, 5]) {
      ClockOfInstant(t, zone);
      assert LocalDay(t, zone) == 2 || LocalDay(t, zone) == 3 || LocalDay(t, zone) == 4;
    }
    assert Allowed(monday, zone, quiet, [1, 2, 3, 4, 5]);
    assert WholeMinutes(zone);
    assert FirstFreeInstant(r.value, now, zone, quiet, [1, 2, 3, 4, 5]);
  }

  // ---------------------------------------------------------------- recurrence

  datatype Recurrence = Daily | Weekly | Workdays | Once

  /** The days ahead, one or more, at which a local time falls on an allowed weekday first. */
  ghost predicate FirstWorkdayAhead(k: nat, local: int, allowed: seq<int>) {
    && k >= 1 && Weekday((local + k * DAY) / DAY) in allowed
    && forall day :: local / DAY < day < (local + k * DAY) / DAY ==> Weekday(day) !in allowed
  }

  /**
    `next_occurrence`: whole local days are added, so the wall-clock time is the argument of the
    conversion back; `toUtc` is the zone's resolution of a local time. The guard of the workday
    scan fires exactly when the list names no weekday at all.
   */
  method NextOccurrence(due: int, zone: Zone, toUtc: int -> int, recurrence: Recurrence, workdays: seq<int>)
    returns (r: Result<int, ScanError>)
    ensures recurrence == Daily ==> r == Success(toUtc(due + zone(due) + DAY))
    ensures recurrence == Weekly ==> r == Success(toUtc(due + zone(due) + 7 * DAY))
    ensures recurrence == Once ==> r == Success(due)
    ensures recurrence == Workdays ==>
      var allowed := if workdays == [] then [1, 2, 3, 4, 5] else workdays;
      if SomeWeekday(workdays)
      then exists k: nat :: 1 <= k <= 7 && FirstWorkdayAhead(k, due + zone(due), allowed)
                            && r == Success(toUtc(due + zone(due) + k * DAY))
      else r == Failure(NoWorkday)
  {
    var local := due + zone(due);
    match recurrence {
      case Daily => return Success(toUtc(local + DAY));
      case Weekly => return Success(toUtc(local + 7 * DAY));
      case Once => return Success(due);
      case Workdays =>
    }
    var allowed := if workdays == [] then [1, 2, 3, 4, 5] else workdays;
    ghost var target := local / DAY;
    if workdays == [] {
      assert 1 in allowed;
    }
    if SomeWeekday(workdays) {
      target := WorkdayWithinAWeek(local / DAY + 1, allowed);
    }
    var candidate := local + DAY;
    ghost var k: nat := 1;
    var guard := 0;
    while Weekday(candidate / DAY) !in allowed
      invariant 0 <= guard <= MAX_RECURRENCE_STEPS && k == guard + 1
      invariant candidate == local + k * DAY && candidate / DAY == local / DAY + k
      invariant forall day :: local / DAY < day < local / DAY + k ==> Weekday(day) !in allowed
      invariant SomeWeekday(workdays) ==> k <= target - local / DAY
      decreases MAX_RECURRENCE_STEPS - guard
    {
      candidate := candidate + DAY;
      guard := guard + 1;
      k := k + 1;
      if guard > MAX_RECURRENCE_STEPS {
        return Failure(NoWorkday);
      }
    }
    r := Success(toUtc(candidate));
    assert FirstWorkdayAhead(k, local, allowed);
  }
}
