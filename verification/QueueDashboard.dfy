/**
  The bucket axis of the dashboard and the series drawn on it (backend/app/queue_dashboard.py).
  Instants are integers (microseconds, UTC); the time zone is a `Calendar`.
 */
module QueueDashboard {
  import opened Wrappers

  const HOUR := 3_600_000_000
  const MAX_ALL_MONTHS := 24

  datatype Month = Month(year: int, month: int) {
    predicate Valid() { 1 <= month <= 12 }
    function Index(): int { 12 * year + month }
  }

  /** `_add_month`. */
  function AddMonth(m: Month): Month {
    if m.month == 12 then Month(m.year + 1, 1) else Month(m.year, m.month + 1)
  }

  /** What the model uses of a time zone: the dates of instants and the midnights of dates. */
  datatype Calendar = Calendar(
    dayStart: int -> int,      // UTC instant of the local midnight that opens a day
    dayOf: int -> int,         // local day of a UTC instant
    monthOf: int -> Month,     // month of a day
    firstDay: Month -> int,    // first day of a month
    hourOf: int -> int,        // local hour of a UTC instant, numbered by its date and hour
    hourKey: int -> string, dayKey: int -> string, monthKey: Month -> string)
  {
    ghost predicate Lawful() { Ordered() && Labelled() }

    /** Days and months follow each other, and an instant lies in its own. */
    ghost predicate Ordered() {
      && (forall d, e :: d <= e ==> dayStart(d) <= dayStart(e))
      && (forall t :: dayStart(dayOf(t)) <= t < dayStart(dayOf(t) + 1))
      && (forall d :: monthOf(d).Valid() && firstDay(monthOf(d)) <= d < firstDay(AddMonth(monthOf(d))))
      && (forall m: Month, n: Month :: m.Valid() && n.Valid() && m.Index() <= n.Index() ==> firstDay(m) <= firstDay(n))
    }

    /** A month's first midnight is in it, and different hours, days and months print differently. */
    ghost predicate Labelled() {
      && (forall m: Month {:trigger BeginsInItself(m)} :: m.Valid() ==> BeginsInItself(m))
      && (forall d :: monthOf(d).Valid())
      && (forall h, i :: hourKey(h) == hourKey(i) ==> h == i)
      && (forall d, e :: dayKey(d) == dayKey(e) ==> d == e)
      && (forall m: Month, n: Month :: monthKey(m) == monthKey(n) ==> m == n)
    }

    function MonthStart(m: Month): int { dayStart(firstDay(m)) }

    predicate BeginsInItself(m: Month) { monthOf(dayOf(MonthStart(m))) == m }
  }

  datatype Period = Today | Week | All | Other(name: string)

  datatype Bucket = Bucket(key: string, from: int, to: int)

  datatype Window = Window(from: int, to: int, buckets: seq<Bucket>, capped: bool)

  datatype Error = UnknownPeriod | EmptyAxis

  // ---------------------------------------------------------------- the axis

  predicate Contiguous(buckets: seq<Bucket>) {
    && (forall i :: 0 <= i < |buckets| ==> buckets[i].from <= buckets[i].to)
    && (forall i :: 0 < i < |buckets| ==> buckets[i - 1].to == buckets[i].from)
  }

  /** Half-open buckets that meet end to end, start with the window and cover it. */
  ghost predicate Axis(w: Window) {
    && w.buckets != [] && Contiguous(w.buckets)
    && w.buckets[0].from == w.from && w.to <= w.buckets[|w.buckets| - 1].to
  }

  function AxisEnd(buckets: seq<Bucket>): int
    requires buckets != []
  {
    buckets[|buckets| - 1].to
  }

  /** The `today` branch of `resolve_window`: hours from midnight until the next midnight is reached. */
  method HourAxis(c: Calendar, start: int, end: int) returns (buckets: seq<Bucket>)
    ensures Contiguous(buckets) && (buckets == [] <==> start >= end)
    ensures buckets != [] ==> buckets[0].from == start && end <= AxisEnd(buckets) < end + HOUR
    ensures forall i :: 0 <= i < |buckets| ==> buckets[i].to == buckets[i].from + HOUR && buckets[i].key == c.hourKey(c.hourOf(buckets[i].from))
  {
    buckets := [];
    var cursor := start;
    while cursor < end
      invariant start <= cursor && Contiguous(buckets)
      invariant buckets == [] ==> cursor == start
      invariant buckets != [] ==> buckets[0].from == start < end && AxisEnd(buckets) == cursor < end + HOUR
      invariant forall i :: 0 <= i < |buckets| ==> buckets[i].to == buckets[i].from + HOUR && buckets[i].key == c.hourKey(c.hourOf(buckets[i].from))
      decreases end - cursor
    {
      var next := cursor + HOUR;
      buckets := buckets + [Bucket(c.hourKey(c.hourOf(cursor)), cursor, next)];
      cursor := next;
    }
  }

  /** The `week` branch: seven local days, each from its own midnight to the next. */
  method DayAxis(c: Calendar, first: int) returns (buckets: seq<Bucket>)
    requires c.Lawful()
    ensures |buckets| == 7 && Contiguous(buckets)
    ensures forall i :: 0 <= i < 7 ==>
      buckets[i] == Bucket(c.dayKey(first + i), c.dayStart(first + i), c.dayStart(first + i + 1))
  {
    buckets := [];
    for offset := 0 to 7
      invariant |buckets| == offset
      invariant forall i :: 0 <= i < offset ==>
        buckets[i] == Bucket(c.dayKey(first + i), c.dayStart(first + i), c.dayStart(first + i + 1))
    {
      var day := first + offset;
      buckets := buckets + [Bucket(c.dayKey(day), c.dayStart(day), c.dayStart(day + 1))];
    }
  }

  /** The month `i` months after another. */
  function MonthAfter(anchor: Month, i: nat): Month {
    if i == 0 then anchor else AddMonth(MonthAfter(anchor, i - 1))
  }

  /** The bucket of a month, from its first midnight to that of the next month. */
  function MonthBucket(c: Calendar, m: Month): Bucket {
    Bucket(c.monthKey(c.monthOf(c.dayOf(c.MonthStart(m)))), c.MonthStart(m), c.MonthStart(AddMonth(m)))
  }

  /** The buckets of `n` consecutive months from the anchor's on. */
  function Months(c: Calendar, anchor: Month, n: nat): (r: seq<Bucket>)
    ensures |r| == n
  {
    if n == 0 then [] else Months(c, anchor, n - 1) + [MonthBucket(c, MonthAfter(anchor, n - 1))]
  }

  lemma {:induction false} MonthAfterValid(anchor: Month, i: nat)
    requires anchor.Valid()
    ensures MonthAfter(anchor, i).Valid() && MonthAfter(anchor, i).Index() == anchor.Index() + i
  {
    if i > 0 {
      MonthAfterValid(anchor, i - 1);
    }
  }

  ghost predicate MonthsGrow(c: Calendar) {
    forall m: Month {:trigger AddMonth(m)} :: m.Valid() ==> c.MonthStart(m) <= c.MonthStart(AddMonth(m))
  }

  lemma LawfulMonthsGrow(c: Calendar)
    requires c.Lawful()
    ensures MonthsGrow(c)
  {
    forall m: Month {:trigger AddMonth(m)} | m.Valid() ensures c.MonthStart(m) <= c.MonthStart(AddMonth(m)) {
      assert c.firstDay(m) <= c.firstDay(AddMonth(m));
    }
  }

  lemma {:induction false} MonthsMeet(c: Calendar, anchor: Month, n: nat)
    requires MonthsGrow(c) && anchor.Valid()
    ensures Contiguous(Months(c, anchor, n))
    ensures n > 0 ==> AxisEnd(Months(c, anchor, n)) == c.MonthStart(MonthAfter(anchor, n))
  {
    if n > 0 {
      MonthsMeet(c, anchor, n - 1);
      MonthAfterValid(anchor, n - 1);
    }
  }

  /** No month that begins before `end` is past the month numbered `last`. */
  ghost predicate EndsBy(c: Calendar, end: int, last: int) {
    forall m: Month :: m.Valid() && c.MonthStart(m) < end ==> m.Index() <= last
  }

  /** The `all` branch: months from the anchor's, until one reaches the end of today. */
  method MonthAxis(c: Calendar, anchor: Month, end: int, ghost last: int) returns (buckets: seq<Bucket>)
    requires anchor.Valid() && EndsBy(c, end, last)
    ensures buckets == Months(c, anchor, |buckets|)
    ensures buckets == [] <==> c.MonthStart(anchor) >= end
    ensures buckets != [] ==> buckets[|buckets| - 1].from < end <= AxisEnd(buckets)
  {
    buckets := [];
    ghost var n := 0;
    var month := anchor;
    var cursor := c.MonthStart(month);
    while cursor < end
      invariant month.Valid() && cursor == c.MonthStart(month)
      invariant buckets == Months(c, anchor, n) && month == MonthAfter(anchor, n)
      invariant n > 0 ==> c.MonthStart(anchor) < end && buckets[n - 1].from < end && AxisEnd(buckets) == cursor
      decreases last + 1 - month.Index()
    {
      var nextMonth := AddMonth(month);
      var next := c.MonthStart(nextMonth);
      var bucket := Bucket(c.monthKey(c.monthOf(c.dayOf(cursor))), cursor, next);
      assert bucket == MonthBucket(c, month);
      buckets := buckets + [bucket];
      month, cursor := nextMonth, next;
      n := n + 1;
    }
  }

  /** Hours from local midnight, labelled by their own beginning, until the next midnight is reached. */
  ghost predicate TodayWindow(c: Calendar, now: int, w: Window) {
    && w.buckets != [] && w.from == c.dayStart(c.dayOf(now)) && AxisEnd(w.buckets) < w.to + HOUR
    && forall i :: 0 <= i < |w.buckets| ==>
         w.buckets[i].to == w.buckets[i].from + HOUR && w.buckets[i].key == c.hourKey(c.hourOf(w.buckets[i].from))
  }

  ghost predicate WeekWindow(c: Calendar, now: int, w: Window) {
    && |w.buckets| == 7
    && forall i :: 0 <= i < 7 ==>
         var day := c.dayOf(now) - 6 + i;
         w.buckets[i] == Bucket(c.dayKey(day), c.dayStart(day), c.dayStart(day + 1))
  }

  /** The last 24 of the months that begin with the anchor's and just reach the end of today. */
  ghost predicate AllWindow(c: Calendar, now: int, earliest: Option<int>, w: Window, n: nat) {
    var months := Months(c, AnchorMonth(c, now, earliest), n);
    && n > 0 && months[n - 1].from < w.to
    && w.buckets == LastMonths(months) && (w.capped <==> n > MAX_ALL_MONTHS)
  }

  function LastMonths(months: seq<Bucket>): seq<Bucket> {
    if |months| > MAX_ALL_MONTHS then months[|months| - MAX_ALL_MONTHS..] else months
  }

  lemma LastMonthsMeet(months: seq<Bucket>)
    requires months != [] && Contiguous(months)
    ensures LastMonths(months) != [] && Contiguous(LastMonths(months)) && AxisEnd(LastMonths(months)) == AxisEnd(months)
  {
  }

  /** `resolve_window` for the `today` period. */
  method ResolveToday(c: Calendar, now: int) returns (w: Window)
    requires c.Lawful()
    ensures Axis(w) && w.to == c.dayStart(c.dayOf(now) + 1) && TodayWindow(c, now, w)
  {
    var start, end := c.dayStart(c.dayOf(now)), c.dayStart(c.dayOf(now) + 1);
    var buckets := HourAxis(c, start, end);
    w := Window(start, end, buckets, false);
  }

  /** `resolve_window` for the `week` period. */
  method ResolveWeek(c: Calendar, now: int) returns (w: Window)
    requires c.Lawful()
    ensures Axis(w) && w.to == c.dayStart(c.dayOf(now) + 1) && WeekWindow(c, now, w)
  {
    var buckets := DayAxis(c, c.dayOf(now) - 6);
    w := Window(buckets[0].from, buckets[6].to, buckets, false);
  }

  /** `resolve_window` for the `all` period; `n` is how many months there are before the cap. */
  method ResolveAll(c: Calendar, now: int, earliest: Option<int>) returns (r: Result<Window, Error>, ghost n: nat)
    requires c.Lawful()
    ensures r.Failure? <==> AnchorOf(c, now, earliest) >= c.dayStart(c.dayOf(now) + 1)
    ensures r.Success? ==>
      Axis(r.value) && r.value.to == c.dayStart(c.dayOf(now) + 1) && AllWindow(c, now, earliest, r.value, n)
  {
    var anchor := if earliest.Some? then earliest.value else now - 365 * 24 * HOUR;
    var month := c.monthOf(c.dayOf(anchor));
    var end := c.dayStart(c.dayOf(now) + 1);
    var months := MonthAxis(c, month, end, c.monthOf(c.dayOf(now)).Index());
    n := |months|;
    if months == [] {
      return Failure(EmptyAxis), n;
    }
    var capped := |months| > MAX_ALL_MONTHS;
    var buckets := if capped then months[|months| - MAX_ALL_MONTHS..] else months;
    LawfulMonthsGrow(c);
    MonthsMeet(c, month, n);
    LastMonthsMeet(months);
    r := Success(Window(buckets[0].from, end, buckets, capped));
  }

  /**
    `resolve_window`; `earliest` is the first creation instant in scope, if any. Every window it
    returns is an axis. The only failures are an unknown period and a first creation in a month
    that begins after today.
   */
  method ResolveWindow(c: Calendar, period: Period, now: int, earliest: Option<int>)
    returns (r: Result<Window, Error>)
    requires c.Lawful()
    ensures r.Failure? <==> period.Other? || (period == All && AnchorOf(c, now, earliest) >= c.dayStart(c.dayOf(now) + 1))
    ensures r.Success? ==> Axis(r.value) && r.value.to == c.dayStart(c.dayOf(now) + 1)
    ensures r.Success? ==> match period
      case Today => TodayWindow(c, now, r.value)
      case Week => WeekWindow(c, now, r.value)
      case All => exists n :: AllWindow(c, now, earliest, r.value, n)
      case Other(_) => true
  {
    match period {
      case Other(_) =>
        return Failure(UnknownPeriod);
      case Today =>
        var w := ResolveToday(c, now);
        return Success(w);
      case Week =>
        var w := ResolveWeek(c, now);
        return Success(w);
      case All =>
        ghost var n;
        r, n := ResolveAll(c, now, earliest);
    }
  }

  /** The start of the first month of the `all` axis. */
  function AnchorOf(c: Calendar, now: int, earliest: Option<int>): int { c.MonthStart(AnchorMonth(c, now, earliest)) }

  function AnchorMonth(c: Calendar, now: int, earliest: Option<int>): Month {
    c.monthOf(c.dayOf(if earliest.Some? then earliest.value else now - 365 * 24 * HOUR))
  }

  /** Data created up to now always has an axis. */
  lemma AnchorBeforeEnd(c: Calendar, anchor: int, now: int)
    requires c.Lawful() && anchor <= now
    ensures AnchorOf(c, now, Some(anchor)) < c.dayStart(c.dayOf(now) + 1)
  {
  }

  /** A month holds the instants of its days. */
  lemma MonthHolds(c: Calendar, t: int)
    requires c.Lawful()
    ensures var m := c.monthOf(c.dayOf(t)); c.MonthStart(m) <= t < c.MonthStart(AddMonth(m))
  {
    var day := c.dayOf(t);
    var m := c.monthOf(day);
    assert c.dayStart(c.firstDay(m)) <= c.dayStart(day);
    assert c.dayStart(day + 1) <= c.dayStart(c.firstDay(AddMonth(m)));
  }

  // ---------------------------------------------------------------- finding the bucket

  /** The scan of `_bucket_of`, by position. */
  function BucketIndex(t: int, buckets: seq<Bucket>): (r: Option<nat>)
    ensures r.Some? ==> r.value < |buckets| && buckets[r.value].from <= t < buckets[r.value].to
    ensures r.None? ==> forall i :: 0 <= i < |buckets| ==> !(buckets[i].from <= t < buckets[i].to)
  {
    if buckets == [] then None
    else if buckets[0].from <= t < buckets[0].to then Some(0)
    else match BucketIndex(t, buckets[1..])
      case None =>
        assert forall i :: 0 < i < |buckets| ==> buckets[i] == buckets[1..][i - 1];
        None
      case Some(i) => Some(i + 1)
  }

  /** `_bucket_of`. */
  function BucketOf(t: int, buckets: seq<Bucket>): Option<string> {
    match BucketIndex(t, buckets)
    case None => None
    case Some(i) => Some(buckets[i].key)
  }

  lemma {:induction false} ContiguousIsOrdered(buckets: seq<Bucket>, i: nat, j: nat)
    requires Contiguous(buckets) && i < j < |buckets|
    ensures buckets[i].to <= buckets[j].from
  {
    if i + 1 < j {
      ContiguousIsOrdered(buckets, i, j - 1);
    }
  }

  lemma {:induction false} ContiguousCovers(buckets: seq<Bucket>, t: int) returns (i: nat)
    requires buckets != [] && Contiguous(buckets) && buckets[0].from <= t < AxisEnd(buckets)
    ensures i < |buckets| && buckets[i].from <= t < buckets[i].to
  {
    var last := |buckets| - 1;
    if buckets[last].from <= t {
      i := last;
    } else {
      i := ContiguousCovers(buckets[..last], t);
    }
  }

  /**
    The buckets tile the window: an instant is found by `_bucket_of` exactly when it lies between
    the ends of the axis, and then the bucket found is the only one that holds it.
   */
  lemma BucketsTile(w: Window, t: int)
    requires Axis(w)
    ensures BucketIndex(t, w.buckets).Some? <==> w.from <= t < AxisEnd(w.buckets)
    ensures w.from <= t < w.to ==> BucketIndex(t, w.buckets).Some?
    ensures forall i :: 0 <= i < |w.buckets| && w.buckets[i].from <= t < w.buckets[i].to
              ==> BucketIndex(t, w.buckets) == Some(i)
  {
    var b := w.buckets;
    if w.from <= t < AxisEnd(b) {
      var i := ContiguousCovers(b, t);
    }
    forall i | 0 <= i < |b| && b[i].from <= t < b[i].to
      ensures BucketIndex(t, b) == Some(i) && w.from <= t < AxisEnd(b)
    {
      var j := BucketIndex(t, b).value;
      if i < j { ContiguousIsOrdered(b, i, j); }
      if j < i { ContiguousIsOrdered(b, j, i); }
      if 0 < i { ContiguousIsOrdered(b, 0, i); }
      if i < |b| - 1 { ContiguousIsOrdered(b, i, |b| - 1); }
    }
  }

  // ---------------------------------------------------------------- counting by key

  /** How often a key was counted; a None was outside the axis. */
  function Count(keys: seq<Option<string>>, key: string): nat {
    if keys == [] then 0
    else Count(keys[..|keys| - 1], key) + (if keys[|keys| - 1] == Some(key) then 1 else 0)
  }

  function Present(keys: seq<Option<string>>): nat {
    if keys == [] then 0 else Present(keys[..|keys| - 1]) + (if keys[|keys| - 1].Some? then 1 else 0)
  }

  /** The sum of a series: its value at every bucket of the axis. */
  function AxisSum(buckets: seq<Bucket>, keys: seq<Option<string>>): nat {
    if buckets == [] then 0
    else AxisSum(buckets[..|buckets| - 1], keys) + Count(keys, buckets[|buckets| - 1].key)
  }

  /** How many buckets of the axis carry a key. */
  function Multiplicity(buckets: seq<Bucket>, key: Option<string>): nat {
    if buckets == [] then 0
    else Multiplicity(buckets[..|buckets| - 1], key) + (if key == Some(buckets[|buckets| - 1].key) then 1 else 0)
  }

  lemma {:induction false} AxisSumStep(buckets: seq<Bucket>, keys: seq<Option<string>>, key: Option<string>)
    ensures AxisSum(buckets, keys + [key]) == AxisSum(buckets, keys) + Multiplicity(buckets, key)
  {
    assert (keys + [key])[..|keys|] == keys;
    if buckets != [] {
      AxisSumStep(buckets[..|buckets| - 1], keys, key);
    }
  }

  lemma {:induction false} AxisSumOfNone(buckets: seq<Bucket>)
    ensures AxisSum(buckets, []) == 0
  {
    if buckets != [] {
      AxisSumOfNone(buckets[..|buckets| - 1]);
    }
  }

  /** Every counted key is on the axis. */
  ghost predicate OnAxis(buckets: seq<Bucket>, keys: seq<Option<string>>) {
    forall j :: 0 <= j < |keys| ==> keys[j].Some? ==> Multiplicity(buckets, keys[j]) >= 1
  }

  ghost predicate CountedOnce(buckets: seq<Bucket>, keys: seq<Option<string>>) {
    forall j :: 0 <= j < |keys| ==> keys[j].Some? ==> Multiplicity(buckets, keys[j]) == 1
  }

  lemma {:induction false} NoneHasNoMultiplicity(buckets: seq<Bucket>)
    ensures Multiplicity(buckets, None) == 0
  {
    if buckets != [] {
      NoneHasNoMultiplicity(buckets[..|buckets| - 1]);
    }
  }

  /** How much too often a key is summed: once for every bucket it labels beyond the first. */
  function Surplus(buckets: seq<Bucket>, key: Option<string>): nat {
    if Multiplicity(buckets, key) == 0 then 0 else Multiplicity(buckets, key) - 1
  }

  function Doubled(buckets: seq<Bucket>, keys: seq<Option<string>>): nat {
    if keys == [] then 0 else Doubled(buckets, keys[..|keys| - 1]) + Surplus(buckets, keys[|keys| - 1])
  }

  /**
    A series never loses a counted item, and exceeds the number of them by what the doubled keys add,
    as the two one-o'clock hours of a 25-hour day do; it is exact when no counted key labels two buckets.
   */
  lemma {:induction false} AxisSumIsCount(buckets: seq<Bucket>, keys: seq<Option<string>>)
    requires OnAxis(buckets, keys)
    ensures AxisSum(buckets, keys) == Present(keys) + Doubled(buckets, keys)
    ensures Doubled(buckets, keys) == 0 <==> CountedOnce(buckets, keys)
  {
    if keys == [] {
      AxisSumOfNone(buckets);
    } else {
      var front, last := keys[..|keys| - 1], keys[|keys| - 1];
      assert front + [last] == keys;
      AxisSumIsCount(buckets, front);
      AxisSumStep(buckets, front, last);
      NoneHasNoMultiplicity(buckets);
      assert CountedOnce(buckets, keys) ==> CountedOnce(buckets, front);
    }
  }

  lemma {:induction false} KeyIsOnAxis(buckets: seq<Bucket>, i: nat)
    requires i < |buckets|
    ensures Multiplicity(buckets, Some(buckets[i].key)) >= 1
  {
    if i < |buckets| - 1 {
      KeyIsOnAxis(buckets[..|buckets| - 1], i);
    }
  }

  ghost predicate DistinctKeys(buckets: seq<Bucket>) {
    forall i, j :: 0 <= i < j < |buckets| ==> buckets[i].key != buckets[j].key
  }

  lemma {:induction false} DistinctMeansOnce(buckets: seq<Bucket>, key: string)
    requires DistinctKeys(buckets)
    ensures Multiplicity(buckets, Some(key)) <= 1
    ensures Multiplicity(buckets, Some(key)) == 1 ==> exists i :: 0 <= i < |buckets| && buckets[i].key == key
  {
    if buckets != [] {
      DistinctMeansOnce(buckets[..|buckets| - 1], key);
    }
  }

  lemma DistinctIsCountedOnce(buckets: seq<Bucket>, keys: seq<Option<string>>)
    requires DistinctKeys(buckets) && OnAxis(buckets, keys)
    ensures CountedOnce(buckets, keys)
  {
    forall j | 0 <= j < |keys| && keys[j].Some? ensures Multiplicity(buckets, keys[j]) == 1 {
      DistinctMeansOnce(buckets, keys[j].value);
    }
  }

  /** The labels of a week are seven different dates. */
  lemma WeekKeysAreDistinct(c: Calendar, now: int, w: Window)
    requires c.Labelled() && WeekWindow(c, now, w)
    ensures DistinctKeys(w.buckets)
  {
  }

  lemma {:induction false} MonthAt(c: Calendar, anchor: Month, n: nat, i: nat)
    requires i < n
    ensures Months(c, anchor, n)[i] == MonthBucket(c, MonthAfter(anchor, i))
  {
    if i < n - 1 {
      MonthAt(c, anchor, n - 1, i);
    }
  }

  lemma MonthsAreLabelledApart(c: Calendar, anchor: Month, i: nat, j: nat)
    requires c.Labelled() && anchor.Valid() && i < j
    ensures MonthBucket(c, MonthAfter(anchor, i)).key != MonthBucket(c, MonthAfter(anchor, j)).key
  {
    MonthAfterValid(anchor, i);
    MonthAfterValid(anchor, j);
    assert c.BeginsInItself(MonthAfter(anchor, i)) && c.BeginsInItself(MonthAfter(anchor, j));
  }

  lemma MonthsAreDistinct(c: Calendar, anchor: Month, n: nat)
    requires c.Labelled() && anchor.Valid()
    ensures DistinctKeys(Months(c, anchor, n))
  {
    forall i, j | 0 <= i < j < n ensures Months(c, anchor, n)[i].key != Months(c, anchor, n)[j].key {
      MonthAt(c, anchor, n, i);
      MonthAt(c, anchor, n, j);
      MonthsAreLabelledApart(c, anchor, i, j);
    }
  }

  lemma AnchorIsValid(c: Calendar, now: int, earliest: Option<int>)
    requires c.Labelled()
    ensures AnchorMonth(c, now, earliest).Valid()
  {
    var day := c.dayOf(if earliest.Some? then earliest.value else now - 365 * 24 * HOUR);
    assert c.monthOf(day).Valid();
  }

  /** The labels of the `all` axis are different months, in a zone of any kind. */
  lemma AllKeysAreDistinct(c: Calendar, now: int, earliest: Option<int>, w: Window, n: nat)
    requires c.Labelled() && AllWindow(c, now, earliest, w, n)
    ensures DistinctKeys(w.buckets)
  {
    AnchorIsValid(c, now, earliest);
    MonthsAreDistinct(c, AnchorMonth(c, now, earliest), n);
  }

  /**
    Where the `all` axis begins: with the month of the first creation in scope, or, with none, of the
    instant 365 days ago; but for the newest 24 months of a longer history, which leave it out.
   */
  lemma AllAxisBegins(c: Calendar, now: int, earliest: Option<int>, w: Window, n: nat)
    requires c.Lawful() && Axis(w) && AllWindow(c, now, earliest, w, n)
    ensures var t := if earliest.Some? then earliest.value else now - 365 * 24 * 60 * 60 * 1_000_000;
            if w.capped then |w.buckets| == 24 && t < w.from else |w.buckets| <= 24 && w.buckets[0].from <= t < w.buckets[0].to
  {
    var t := if earliest.Some? then earliest.value else now - 365 * 24 * HOUR;
    var anchor := AnchorMonth(c, now, earliest);
    var months := Months(c, anchor, n);
    MonthHolds(c, t);
    LawfulMonthsGrow(c);
    AnchorIsValid(c, now, earliest);
    MonthsMeet(c, anchor, n);
    MonthAt(c, anchor, n, 0);
    if n > MAX_ALL_MONTHS {
      ContiguousIsOrdered(months, 0, n - MAX_ALL_MONTHS);
    }
  }

  /** The labels of a day are different exactly when no local hour begins twice. */
  lemma TodayKeysDistinctIff(c: Calendar, now: int, w: Window)
    requires c.Labelled() && TodayWindow(c, now, w)
    ensures DistinctKeys(w.buckets) <==>
      forall i, j :: 0 <= i < j < |w.buckets| ==> c.hourOf(w.buckets[i].from) != c.hourOf(w.buckets[j].from)
  {
    var b := w.buckets;
    forall i, j | 0 <= i < j < |b| ensures b[i].key != b[j].key <==> c.hourOf(b[i].from) != c.hourOf(b[j].from) {
    }
  }

  /** The positions at which a key was counted. */
  ghost function Counted(keys: seq<Option<string>>, key: string): set<int> {
    set j | 0 <= j < |keys| && keys[j] == Some(key)
  }

  ghost function Found(keys: seq<Option<string>>): set<int> { set j | 0 <= j < |keys| && keys[j].Some? }

  lemma {:induction false} CountIsCardinality(keys: seq<Option<string>>, key: string)
    ensures Count(keys, key) == |Counted(keys, key)|
  {
    if keys == [] {
      assert Counted(keys, key) == {};
    } else {
      var n := |keys| - 1;
      CountIsCardinality(keys[..n], key);
      assert Counted(keys, key) == Counted(keys[..n], key) + if keys[n] == Some(key) then {n} else {};
    }
  }

  lemma {:induction false} PresentIsCardinality(keys: seq<Option<string>>)
    ensures Present(keys) == |Found(keys)|
  {
    if keys == [] {
      assert Found(keys) == {};
    } else {
      var n := |keys| - 1;
      PresentIsCardinality(keys[..n]);
      assert Found(keys) == Found(keys[..n]) + if keys[n].Some? then {n} else {};
    }
  }

  /** An instant lies in a bucket of this label. */
  ghost predicate FallsOn(buckets: seq<Bucket>, key: string, t: int) {
    exists k :: 0 <= k < |buckets| && buckets[k].key == key && buckets[k].from <= t < buckets[k].to
  }

  lemma KeyMeans(w: Window, t: int, key: string)
    requires Axis(w)
    ensures BucketOf(t, w.buckets) == Some(key) <==> FallsOn(w.buckets, key, t)
    ensures BucketOf(t, w.buckets).Some? <==> w.from <= t < AxisEnd(w.buckets)
  {
    BucketsTile(w, t);
    if FallsOn(w.buckets, key, t) {
      var k :| 0 <= k < |w.buckets| && w.buckets[k].key == key && w.buckets[k].from <= t < w.buckets[k].to;
      assert BucketIndex(t, w.buckets) == Some(k);
    }
  }

  // ---------------------------------------------------------------- created candidates

  function KeysOf(instants: seq<int>, buckets: seq<Bucket>): seq<Option<string>> {
    seq(|instants|, i requires 0 <= i < |instants| => BucketOf(instants[i], buckets))
  }

  lemma KeysAreOnAxis(instants: seq<int>, buckets: seq<Bucket>)
    ensures OnAxis(buckets, KeysOf(instants, buckets))
  {
    forall j | 0 <= j < |instants| && BucketOf(instants[j], buckets).Some?
      ensures Multiplicity(buckets, BucketOf(instants[j], buckets)) >= 1
    {
      KeyIsOnAxis(buckets, BucketIndex(instants[j], buckets).value);
    }
  }

  /** The counter dictionary of a series agrees with the keys counted so far. */
  ghost predicate Tally(counters: map<string, nat>, buckets: seq<Bucket>, keys: seq<Option<string>>) {
    && (forall i :: 0 <= i < |buckets| ==> buckets[i].key in counters)
    && (forall key :: key in counters ==> counters[key] == Count(keys, key))
  }

  method ZeroCounters(buckets: seq<Bucket>) returns (counters: map<string, nat>)
    ensures Tally(counters, buckets, [])
  {
    counters := map[];
    for i := 0 to |buckets|
      invariant forall j :: 0 <= j < i ==> buckets[j].key in counters
      invariant forall key :: key in counters ==> counters[key] == 0
    {
      counters := counters[buckets[i].key := 0];
    }
  }

  lemma TallyStep(counters: map<string, nat>, buckets: seq<Bucket>, keys: seq<Option<string>>, key: Option<string>)
    requires Tally(counters, buckets, keys) && (key.Some? ==> key.value in counters)
    ensures Tally(if key.Some? then counters[key.value := counters[key.value] + 1] else counters, buckets, keys + [key])
  {
  }

  /** The list a series is returned as: one value per bucket, read from the counters by key. */
  method Values(buckets: seq<Bucket>, counters: map<string, nat>, ghost keys: seq<Option<string>>)
    returns (values: seq<nat>)
    requires Tally(counters, buckets, keys)
    ensures |values| == |buckets|
    ensures forall i :: 0 <= i < |buckets| ==> values[i] == Count(keys, buckets[i].key)
  {
    values := [];
    for i := 0 to |buckets|
      invariant |values| == i
      invariant forall j :: 0 <= j < i ==> values[j] == Count(keys, buckets[j].key)
    {
      values := values + [counters[buckets[i].key]];
    }
  }

  /** `_created_series`. */
  method CreatedSeries(instants: seq<int>, w: Window) returns (values: seq<nat>)
    ensures |values| == |w.buckets|
    ensures forall i :: 0 <= i < |w.buckets| ==> values[i] == Count(KeysOf(instants, w.buckets), w.buckets[i].key)
  {
    var counters := ZeroCounters(w.buckets);
    ghost var keys: seq<Option<string>> := [];
    for i := 0 to |instants|
      invariant keys == KeysOf(instants, w.buckets)[..i] && Tally(counters, w.buckets, keys)
    {
      var key := BucketOf(instants[i], w.buckets);
      TallyStep(counters, w.buckets, keys, key);
      keys := keys + [key];
      if key.Some? {
        counters := counters[key.value := counters[key.value] + 1];
      }
    }
    assert keys == KeysOf(instants, w.buckets);
    values := Values(w.buckets, counters, keys);
  }

  /** The direct count of `_new_candidates_count`, over any half-open interval. */
  function Within(instants: seq<int>, from: int, to: int): nat {
    if instants == [] then 0
    else Within(instants[..|instants| - 1], from, to) + (if from <= instants[|instants| - 1] < to then 1 else 0)
  }

  lemma {:induction false} PresentIsWithin(instants: seq<int>, w: Window)
    requires Axis(w)
    ensures Present(KeysOf(instants, w.buckets)) == Within(instants, w.from, AxisEnd(w.buckets))
  {
    if instants != [] {
      var front, t := instants[..|instants| - 1], instants[|instants| - 1];
      PresentIsWithin(front, w);
      BucketsTile(w, t);
      assert KeysOf(instants, w.buckets)[..|front|] == KeysOf(front, w.buckets);
    }
  }

  lemma {:induction false} WithinSplit(instants: seq<int>, from: int, mid: int, to: int)
    requires from <= mid <= to
    ensures Within(instants, from, to) == Within(instants, from, mid) + Within(instants, mid, to)
  {
    if instants != [] {
      WithinSplit(instants[..|instants| - 1], from, mid, to);
    }
  }

  /**
    The created series against the created count, for every axis: the series sums to the count, plus
    whatever was created between the end of the window and the end of its last bucket, plus what
    doubled keys add.
   */
  lemma CreatedSeriesExactly(instants: seq<int>, w: Window)
    requires Axis(w) && w.from <= w.to
    ensures AxisSum(w.buckets, KeysOf(instants, w.buckets))
         == Within(instants, w.from, w.to) + Within(instants, w.to, AxisEnd(w.buckets))
            + Doubled(w.buckets, KeysOf(instants, w.buckets))
  {
    KeysAreOnAxis(instants, w.buckets);
    AxisSumIsCount(w.buckets, KeysOf(instants, w.buckets));
    PresentIsWithin(instants, w);
    WithinSplit(instants, w.from, w.to, AxisEnd(w.buckets));
  }

  /** Each value of the created series is the number of creations in the buckets of that label. */
  lemma CreatedSeriesMeans(instants: seq<int>, w: Window, i: nat)
    requires Axis(w) && i < |w.buckets|
    ensures Count(KeysOf(instants, w.buckets), w.buckets[i].key)
         == |set j | 0 <= j < |instants| && FallsOn(w.buckets, w.buckets[i].key, instants[j])|
  {
    var keys, key := KeysOf(instants, w.buckets), w.buckets[i].key;
    CountIsCardinality(keys, key);
    forall j | 0 <= j < |instants| ensures keys[j] == Some(key) <==> FallsOn(w.buckets, key, instants[j]) {
      KeyMeans(w, instants[j], key);
    }
    assert Counted(keys, key) == set j | 0 <= j < |instants| && FallsOn(w.buckets, key, instants[j]);
  }

  /** The week and the all-time series never disagree with the card: they sum to the created count. */
  lemma CreatedSeriesSumsToCount(c: Calendar, now: int, earliest: Option<int>, instants: seq<int>, w: Window, n: nat)
    requires c.Lawful() && Axis(w) && w.from <= w.to && w.to == c.dayStart(c.dayOf(now) + 1)
    requires WeekWindow(c, now, w) || AllWindow(c, now, earliest, w, n)
    ensures AxisSum(w.buckets, KeysOf(instants, w.buckets))
         == Within(instants, w.from, w.to) + Within(instants, w.to, AxisEnd(w.buckets))
    ensures WeekWindow(c, now, w) ==> AxisEnd(w.buckets) == w.to && Within(instants, w.to, AxisEnd(w.buckets)) == 0
  {
    if WeekWindow(c, now, w) {
      WeekKeysAreDistinct(c, now, w);
      NoneWithin(instants, w.to);
    } else {
      AllKeysAreDistinct(c, now, earliest, w, n);
    }
    CreatedSeriesExactly(instants, w);
    KeysAreOnAxis(instants, w.buckets);
    DistinctIsCountedOnce(w.buckets, KeysOf(instants, w.buckets));
    AxisSumIsCount(w.buckets, KeysOf(instants, w.buckets));
  }

  lemma {:induction false} NoneWithin(instants: seq<int>, t: int)
    ensures Within(instants, t, t) == 0
  {
    if instants != [] {
      NoneWithin(instants[..|instants| - 1], t);
    }
  }

  /** On a day of 25 hours one candidate is counted once and drawn twice. */
  lemma RepeatedHourIsDrawnTwice(key: string, from: int)
    ensures
      var b := [Bucket(key, from, from + HOUR), Bucket(key, from + HOUR, from + 2 * HOUR)];
      var w := Window(from, from + 2 * HOUR, b, false);
      Axis(w) && AxisSum(b, KeysOf([from], b)) == 2 && Within([from], w.from, w.to) == 1
  {
    var first, second := Bucket(key, from, from + HOUR), Bucket(key, from + HOUR, from + 2 * HOUR);
    var b := [first, second];
    assert BucketIndex(from, b) == Some(0) && KeysOf([from], b) == [Some(key)];
    var keys := [Some(key)];
    assert keys[..0] == [] && Count(keys, key) == 1;
    assert b[..1] == [first] && [first][..0] == [] && AxisSum([first], keys) == 1;
    assert [from][..0] == [];
  }

  // ---------------------------------------------------------------- interview conversion

  datatype Fact = Fact(candidate: int, reachedInterview: bool, at: int)

  /** `setdefault` over the facts: the first interview of each candidate. */
  function FirstInterviews(facts: seq<Fact>): map<int, int> {
    if facts == [] then map[]
    else
      var earlier := FirstInterviews(facts[..|facts| - 1]);
      var fact := facts[|facts| - 1];
      if fact.reachedInterview && fact.candidate !in earlier then earlier[fact.candidate := fact.at] else earlier
  }

  /** A candidate and its creation instant; the source iterates over a dictionary of them. */
  datatype Created = Created(candidate: int, at: int)

  function CohortKey(c: Created, ids: set<int>, buckets: seq<Bucket>): Option<string> {
    if c.candidate in ids then BucketOf(c.at, buckets) else None
  }

  function ConvertedKey(c: Created, ids: set<int>, reached: map<int, int>, buckets: seq<Bucket>): Option<string> {
    if c.candidate in reached && reached[c.candidate] >= c.at then CohortKey(c, ids, buckets) else None
  }

  function CohortKeys(created: seq<Created>, ids: set<int>, buckets: seq<Bucket>): seq<Option<string>> {
    seq(|created|, i requires 0 <= i < |created| => CohortKey(created[i], ids, buckets))
  }

  function ConvertedKeys(created: seq<Created>, ids: set<int>, reached: map<int, int>, buckets: seq<Bucket>)
    : seq<Option<string>>
  {
    seq(|created|, i requires 0 <= i < |created| => ConvertedKey(created[i], ids, reached, buckets))
  }

  /** The period numerator: cohort members with an interview at any time. */
  function ReachedInCohort(created: seq<Created>, ids: set<int>, reached: map<int, int>, buckets: seq<Bucket>): nat {
    if created == [] then 0
    else
      var last := created[|created| - 1];
      ReachedInCohort(created[..|created| - 1], ids, reached, buckets)
      + (if CohortKey(last, ids, buckets).Some? && last.candidate in reached then 1 else 0)
  }

  /** The first loop of `_conversion_series`. */
  method ReachedInterview(facts: seq<Fact>) returns (reached: map<int, int>)
    ensures reached == FirstInterviews(facts)
  {
    reached := map[];
    for i := 0 to |facts|
      invariant reached == FirstInterviews(facts[..i])
    {
      assert facts[..i + 1][..i] == facts[..i];
      if facts[i].reachedInterview && facts[i].candidate !in reached {
        reached := reached[facts[i].candidate := facts[i].at];
      }
    }
    assert facts[..|facts|] == facts;
  }

  lemma CohortStep(created: seq<Created>, ids: set<int>, reached: map<int, int>, buckets: seq<Bucket>, i: nat)
    requires i < |created|
    ensures CohortKeys(created, ids, buckets)[..i + 1] == CohortKeys(created, ids, buckets)[..i] + [CohortKey(created[i], ids, buckets)]
    ensures ConvertedKeys(created, ids, reached, buckets)[..i + 1]
         == ConvertedKeys(created, ids, reached, buckets)[..i] + [ConvertedKey(created[i], ids, reached, buckets)]
    ensures ReachedInCohort(created[..i + 1], ids, reached, buckets) == ReachedInCohort(created[..i], ids, reached, buckets)
         + (if CohortKey(created[i], ids, buckets).Some? && created[i].candidate in reached then 1 else 0)
  {
    assert created[..i + 1][..i] == created[..i];
  }

  /** `_conversion_series`: numerators and denominators per bucket, and the two period totals. */
  method ConversionSeries(facts: seq<Fact>, ids: set<int>, created: seq<Created>, w: Window)
    returns (numerators: seq<nat>, denominators: seq<nat>, numerator: nat, denominator: nat)
    ensures |numerators| == |denominators| == |w.buckets|
    ensures forall i :: 0 <= i < |w.buckets| ==>
      && numerators[i] == Count(ConvertedKeys(created, ids, FirstInterviews(facts), w.buckets), w.buckets[i].key)
      && denominators[i] == Count(CohortKeys(created, ids, w.buckets), w.buckets[i].key)
    ensures numerator == ReachedInCohort(created, ids, FirstInterviews(facts), w.buckets)
    ensures denominator == Present(CohortKeys(created, ids, w.buckets))
  {
    var reached := ReachedInterview(facts);
    var num := ZeroCounters(w.buckets);
    var den := num;
    ghost var cohort := CohortKeys(created, ids, w.buckets);
    ghost var converted := ConvertedKeys(created, ids, reached, w.buckets);
    numerator, denominator := 0, 0;
    for i := 0 to |created|
      invariant Tally(num, w.buckets, converted[..i]) && Tally(den, w.buckets, cohort[..i])
      invariant numerator == ReachedInCohort(created[..i], ids, reached, w.buckets)
      invariant denominator == Present(cohort[..i])
    {
      var c := created[i];
      var key := CohortKey(c, ids, w.buckets);
      CohortStep(created, ids, reached, w.buckets, i);
      TallyStep(den, w.buckets, cohort[..i], key);
      TallyStep(num, w.buckets, converted[..i], ConvertedKey(c, ids, reached, w.buckets));
      if key.Some? {
        den := den[key.value := den[key.value] + 1];
        denominator := denominator + 1;
        if c.candidate in reached {
          numerator := numerator + 1;
          if reached[c.candidate] >= c.at {
            num := num[key.value := num[key.value] + 1];
          }
        }
      }
    }
    assert created[..|created|] == created && cohort[..|created|] == cohort && converted[..|created|] == converted;
    numerators := Values(w.buckets, num, converted);
    denominators := Values(w.buckets, den, cohort);
  }

  /** A cohort member whose recorded interview precedes its creation. */
  predicate InterviewedBefore(c: Created, ids: set<int>, reached: map<int, int>, buckets: seq<Bucket>) {
    CohortKey(c, ids, buckets).Some? && c.candidate in reached && reached[c.candidate] < c.at
  }

  function Early(created: seq<Created>, ids: set<int>, reached: map<int, int>, buckets: seq<Bucket>): nat {
    if created == [] then 0
    else
      Early(created[..|created| - 1], ids, reached, buckets)
      + (if InterviewedBefore(created[|created| - 1], ids, reached, buckets) then 1 else 0)
  }

  lemma {:induction false} ConvertedAgainstReached(created: seq<Created>, ids: set<int>, reached: map<int, int>, buckets: seq<Bucket>)
    ensures
      var converted := Present(ConvertedKeys(created, ids, reached, buckets));
      var numerator := ReachedInCohort(created, ids, reached, buckets);
      && converted + Early(created, ids, reached, buckets) == numerator <= Present(CohortKeys(created, ids, buckets))
      && (Early(created, ids, reached, buckets) == 0 <==>
            forall i :: 0 <= i < |created| ==> !InterviewedBefore(created[i], ids, reached, buckets))
  {
    if created != [] {
      var front := created[..|created| - 1];
      ConvertedAgainstReached(front, ids, reached, buckets);
      assert ConvertedKeys(created, ids, reached, buckets)[..|front|] == ConvertedKeys(front, ids, reached, buckets);
      assert CohortKeys(created, ids, buckets)[..|front|] == CohortKeys(front, ids, buckets);
      assert forall i :: 0 <= i < |front| ==> front[i] == created[i];
    }
  }

  lemma KeyedOnAxis(buckets: seq<Bucket>, keys: seq<Option<string>>, instants: seq<int>)
    requires |instants| == |keys|
    requires forall j :: 0 <= j < |keys| ==> keys[j].Some? ==> keys[j] == BucketOf(instants[j], buckets)
    ensures OnAxis(buckets, keys)
  {
    forall j | 0 <= j < |keys| && keys[j].Some? ensures Multiplicity(buckets, keys[j]) >= 1 {
      KeyIsOnAxis(buckets, BucketIndex(instants[j], buckets).value);
    }
  }

  /**
    Buckets against the period, for every axis. The bucket denominators exceed the period denominator
    by what doubled keys add; the bucket numerators differ from the period numerator, itself at most
    the denominator, by that and by the members interviewed before their creation, who are missing.
   */
  lemma ConversionAgainstTotals(created: seq<Created>, ids: set<int>, reached: map<int, int>, b: seq<Bucket>)
    ensures
      var numerator := ReachedInCohort(created, ids, reached, b);
      var denominator := Present(CohortKeys(created, ids, b));
      var cohort, converted := CohortKeys(created, ids, b), ConvertedKeys(created, ids, reached, b);
      && AxisSum(b, cohort) == denominator + Doubled(b, cohort)
      && AxisSum(b, converted) + Early(created, ids, reached, b) == numerator + Doubled(b, converted)
      && numerator <= denominator
  {
    var instants := seq(|created|, i requires 0 <= i < |created| => created[i].at);
    KeyedOnAxis(b, CohortKeys(created, ids, b), instants);
    KeyedOnAxis(b, ConvertedKeys(created, ids, reached, b), instants);
    AxisSumIsCount(b, CohortKeys(created, ids, b));
    AxisSumIsCount(b, ConvertedKeys(created, ids, reached, b));
    ConvertedAgainstReached(created, ids, reached, b);
  }

  /**
    So with distinct keys the denominators agree, and the numerators agree exactly when no member of
    the cohort was interviewed before its creation.
   */
  lemma ConversionAgreesIff(created: seq<Created>, ids: set<int>, reached: map<int, int>, b: seq<Bucket>)
    requires DistinctKeys(b)
    ensures AxisSum(b, CohortKeys(created, ids, b)) == Present(CohortKeys(created, ids, b))
    ensures AxisSum(b, ConvertedKeys(created, ids, reached, b)) == ReachedInCohort(created, ids, reached, b) <==>
              forall i :: 0 <= i < |created| ==> !InterviewedBefore(created[i], ids, reached, b)
  {
    var instants := seq(|created|, i requires 0 <= i < |created| => created[i].at);
    var cohort, converted := CohortKeys(created, ids, b), ConvertedKeys(created, ids, reached, b);
    KeyedOnAxis(b, cohort, instants);
    KeyedOnAxis(b, converted, instants);
    DistinctIsCountedOnce(b, cohort);
    DistinctIsCountedOnce(b, converted);
    AxisSumIsCount(b, cohort);
    AxisSumIsCount(b, converted);
    ConversionAgainstTotals(created, ids, reached, b);
    ConvertedAgainstReached(created, ids, reached, b);
  }

  /** The first interview of a candidate among the facts. */
  ghost predicate FirstInterview(facts: seq<Fact>, c: int, k: int) {
    && 0 <= k < |facts| && facts[k].candidate == c && facts[k].reachedInterview
    && forall g :: 0 <= g < k ==> !(facts[g].candidate == c && facts[g].reachedInterview)
  }

  ghost predicate Interviewed(facts: seq<Fact>, c: int) {
    exists k :: 0 <= k < |facts| && facts[k].candidate == c && facts[k].reachedInterview
  }

  lemma {:induction false} ReachedIffInterviewed(facts: seq<Fact>, c: int)
    ensures c in FirstInterviews(facts) <==> Interviewed(facts, c)
  {
    if facts != [] {
      var n := |facts| - 1;
      ReachedIffInterviewed(facts[..n], c);
      assert forall k :: 0 <= k < n ==> facts[..n][k] == facts[k];
    }
  }

  /** The instant kept for a candidate is that of the first interview. */
  lemma {:induction false} ReachedAtFirst(facts: seq<Fact>, c: int) returns (k: int)
    requires c in FirstInterviews(facts)
    ensures FirstInterview(facts, c, k) && FirstInterviews(facts)[c] == facts[k].at
  {
    var n := |facts| - 1;
    if c in FirstInterviews(facts[..n]) {
      k := ReachedAtFirst(facts[..n], c);
    } else {
      ReachedIffInterviewed(facts[..n], c);
      assert forall g :: 0 <= g < n ==> facts[..n][g] == facts[g];
      k := n;
    }
  }

  /** A member of the cohort: asked for, and created on the axis. */
  ghost predicate InCohort(c: Created, ids: set<int>, w: Window)
    requires Axis(w)
  {
    c.candidate in ids && w.from <= c.at < AxisEnd(w.buckets)
  }

  /** A cohort member that was created in a bucket of this label. */
  ghost predicate CohortOn(c: Created, ids: set<int>, buckets: seq<Bucket>, key: string) {
    c.candidate in ids && FallsOn(buckets, key, c.at)
  }

  ghost predicate InterviewedSince(facts: seq<Fact>, c: Created) {
    exists k :: FirstInterview(facts, c.candidate, k) && facts[k].at >= c.at
  }

  lemma ConvertedMeans(c: Created, facts: seq<Fact>)
    ensures var reached := FirstInterviews(facts);
            && (c.candidate in reached <==> Interviewed(facts, c.candidate))
            && (c.candidate in reached && reached[c.candidate] >= c.at <==> InterviewedSince(facts, c))
  {
    ReachedIffInterviewed(facts, c.candidate);
    if c.candidate in FirstInterviews(facts) {
      var k := ReachedAtFirst(facts, c.candidate);
      assert forall g :: FirstInterview(facts, c.candidate, g) ==> g == k;
    }
  }

  lemma {:induction false} ReachedIsCardinality(created: seq<Created>, ids: set<int>, reached: map<int, int>, buckets: seq<Bucket>)
    ensures ReachedInCohort(created, ids, reached, buckets)
         == |set j | 0 <= j < |created| && CohortKey(created[j], ids, buckets).Some? && created[j].candidate in reached|
  {
    var all := set j | 0 <= j < |created| && CohortKey(created[j], ids, buckets).Some? && created[j].candidate in reached;
    if created == [] {
      assert all == {};
    } else {
      var n := |created| - 1;
      var front := created[..n];
      ReachedIsCardinality(front, ids, reached, buckets);
      var before := set j | 0 <= j < |front| && CohortKey(front[j], ids, buckets).Some? && front[j].candidate in reached;
      assert all == before + if CohortKey(created[n], ids, buckets).Some? && created[n].candidate in reached then {n} else {};
    }
  }

  /**
    The two period totals: how many of the candidates asked for were created on the axis, and how many
    of those reached an interview at any time.
   */
  lemma TotalsMean(facts: seq<Fact>, ids: set<int>, created: seq<Created>, w: Window)
    requires Axis(w)
    ensures Present(CohortKeys(created, ids, w.buckets)) == |set j | 0 <= j < |created| && InCohort(created[j], ids, w)|
    ensures ReachedInCohort(created, ids, FirstInterviews(facts), w.buckets)
         == |set j | 0 <= j < |created| && InCohort(created[j], ids, w) && Interviewed(facts, created[j].candidate)|
  {
    var b, reached := w.buckets, FirstInterviews(facts);
    PresentIsCardinality(CohortKeys(created, ids, b));
    ReachedIsCardinality(created, ids, reached, b);
    forall j | 0 <= j < |created|
      ensures CohortKey(created[j], ids, b).Some? <==> InCohort(created[j], ids, w)
      ensures created[j].candidate in reached <==> Interviewed(facts, created[j].candidate)
    {
      KeyMeans(w, created[j].at, "");
      ConvertedMeans(created[j], facts);
    }
    assert Found(CohortKeys(created, ids, b)) == set j | 0 <= j < |created| && InCohort(created[j], ids, w);
    assert (set j | 0 <= j < |created| && CohortKey(created[j], ids, b).Some? && created[j].candidate in reached)
        == set j | 0 <= j < |created| && InCohort(created[j], ids, w) && Interviewed(facts, created[j].candidate);
  }

  /**
    The two values of a bucket: how many of the candidates asked for were created in a bucket of its
    label, and how many of those had their first interview then or later.
   */
  lemma BucketValuesMean(facts: seq<Fact>, ids: set<int>, created: seq<Created>, w: Window, i: nat)
    requires Axis(w) && i < |w.buckets|
    ensures var b, key := w.buckets, w.buckets[i].key;
            && Count(CohortKeys(created, ids, b), key) == |set j | 0 <= j < |created| && CohortOn(created[j], ids, b, key)|
            && Count(ConvertedKeys(created, ids, FirstInterviews(facts), b), key)
               == |set j | 0 <= j < |created| && CohortOn(created[j], ids, b, key) && InterviewedSince(facts, created[j])|
  {
    var b, key, reached := w.buckets, w.buckets[i].key, FirstInterviews(facts);
    var cohort, converted := CohortKeys(created, ids, b), ConvertedKeys(created, ids, reached, b);
    CountIsCardinality(cohort, key);
    CountIsCardinality(converted, key);
    forall j | 0 <= j < |created|
      ensures cohort[j] == Some(key) <==> CohortOn(created[j], ids, b, key)
      ensures converted[j] == Some(key) <==> CohortOn(created[j], ids, b, key) && InterviewedSince(facts, created[j])
    {
      KeyMeans(w, created[j].at, key);
      ConvertedMeans(created[j], facts);
    }
    assert Counted(cohort, key) == set j | 0 <= j < |created| && CohortOn(created[j], ids, b, key);
    assert Counted(converted, key)
        == set j | 0 <= j < |created| && CohortOn(created[j], ids, b, key) && InterviewedSince(facts, created[j]);
  }

  /** A candidate interviewed before it was created is in the period numerator and in no bucket's. */
  lemma EarlyInterviewIsInNoBucket(id: int, at: int, bucket: Bucket)
    requires bucket.from <= at < bucket.to
    ensures
      var created, reached := [Created(id, at)], FirstInterviews([Fact(id, true, at - 1)]);
      && InterviewedBefore(created[0], {id}, reached, [bucket])
      && ReachedInCohort(created, {id}, reached, [bucket]) == 1
      && AxisSum([bucket], ConvertedKeys(created, {id}, reached, [bucket])) == 0
  {
    var facts, created := [Fact(id, true, at - 1)], [Created(id, at)];
    assert facts[..0] == [];
    var reached := FirstInterviews(facts);
    assert FirstInterviews([]) == map[] && reached == map[id := at - 1];
    assert created[..0] == [] && BucketIndex(at, [bucket]) == Some(0);
    var keys := ConvertedKeys(created, {id}, reached, [bucket]);
    assert keys == [None] && keys[..0] == [] && [bucket][..0] == [];
    assert Count(keys, bucket.key) == 0 && AxisSum([], keys) == 0;
  }
}
