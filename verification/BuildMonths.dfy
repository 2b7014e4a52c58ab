/** Splitting a build over calendar months: month_bounds and the loop of normalize in
    src/eng_platform_api/services/cloud_build_usage.py:43-46 and :104-123. Durations are exact microseconds. */
module BuildMonths {
  datatype Option<+T> = None | Some(value: T)

  // The Gregorian calendar

  datatype Month = Month(year: nat, month: nat)

  datatype Date = Date(year: nat, month: nat, day: nat)

  /** A moment in UTC: a date and the microseconds since its midnight. */
  datatype Moment = Moment(date: Date, micros: nat)

  const DAY := 86_400_000_000

  predicate Leap(y: nat) { y % 4 == 0 && (y % 100 != 0 || y % 400 == 0) }

  function DaysIn(m: Month): nat {
    if m.month == 2 then (if Leap(m.year) then 29 else 28)
    else if m.month == 4 || m.month == 6 || m.month == 9 || m.month == 11 then 30 else 31
  }

  ghost predicate RealMonth(m: Month) { m.year >= 1 && 1 <= m.month <= 12 }

  function MonthOf(d: Date): Month { Month(d.year, d.month) }

  ghost predicate RealDate(d: Date) { RealMonth(MonthOf(d)) && 1 <= d.day <= DaysIn(MonthOf(d)) }

  ghost predicate RealMoment(t: Moment) { RealDate(t.date) && t.micros < DAY }

  function NextMonth(m: Month): Month { if m.month < 12 then Month(m.year, m.month + 1) else Month(m.year + 1, 1) }

  function FirstOf(m: Month): Date { Date(m.year, m.month, 1) }

  function NextDay(d: Date): Date {
    if d.day < DaysIn(MonthOf(d)) then d.(day := d.day + 1) else FirstOf(NextMonth(MonthOf(d)))
  }

  function AddDays(d: Date, n: nat): Date
    decreases n
  {
    if n == 0 then d else AddDays(NextDay(d), n - 1)
  }

  /** The days of the years before `y`, as the leap rule sums them up. */
  function DaysBeforeYear(y: nat): nat
    requires y >= 1
  {
    (y - 1) * 365 + (y - 1) / 4 - (y - 1) / 100 + (y - 1) / 400
  }

  function DaysBeforeMonth(m: Month): nat
    requires RealMonth(m)
    decreases m.month
  {
    if m.month == 1 then 0 else DaysBeforeMonth(Month(m.year, m.month - 1)) + DaysIn(Month(m.year, m.month - 1))
  }

  /** The proleptic ordinal of a date: 1 January of the year 1 is day 1. */
  function Ordinal(d: Date): nat
    requires RealMonth(MonthOf(d))
  {
    DaysBeforeYear(d.year) + DaysBeforeMonth(MonthOf(d)) + d.day
  }

  function Instant(t: Moment): int
    requires RealMoment(t)
  {
    Ordinal(t.date) * DAY + t.micros
  }

  function Midnight(d: Date): Moment { Moment(d, 0) }

  ghost function Start(m: Month): int
    requires RealMonth(m)
  {
    Instant(Midnight(FirstOf(m)))
  }

  lemma YearLength(y: nat)
    requires y >= 1
    ensures DaysBeforeYear(y + 1) == DaysBeforeYear(y) + if Leap(y) then 366 else 365
  {
    LeapQuotients(y);
  }

  lemma LeapQuotients(y: nat)
    requires y >= 1
    ensures y / 4 == (y - 1) / 4 + (if y % 4 == 0 then 1 else 0)
    ensures y / 100 == (y - 1) / 100 + (if y % 100 == 0 then 1 else 0)
    ensures y / 400 == (y - 1) / 400 + (if y % 400 == 0 then 1 else 0)
    ensures (y % 400 == 0 ==> y % 100 == 0) && (y % 100 == 0 ==> y % 4 == 0)
  {
  }

  lemma MonthsBefore(y: nat)
    requires y >= 1
    ensures DaysBeforeMonth(Month(y, 12)) + 31 == if Leap(y) then 366 else 365
  {
    var feb := DaysIn(Month(y, 2));
    assert DaysBeforeMonth(Month(y, 1)) == 0;
    assert DaysBeforeMonth(Month(y, 2)) == 31;
    assert DaysBeforeMonth(Month(y, 3)) == 31 + feb;
    assert DaysBeforeMonth(Month(y, 5)) == 92 + feb;
    assert DaysBeforeMonth(Month(y, 7)) == 153 + feb;
    assert DaysBeforeMonth(Month(y, 9)) == 215 + feb;
    assert DaysBeforeMonth(Month(y, 11)) == 276 + feb;
  }

  /** The first of the next month comes DaysIn days after the first of a month, also across a year's end. */
  lemma MonthLength(m: Month)
    requires RealMonth(m)
    ensures RealMonth(NextMonth(m)) && Ordinal(FirstOf(NextMonth(m))) == Ordinal(FirstOf(m)) + DaysIn(m)
  {
    if m.month == 12 {
      hide DaysBeforeYear, DaysBeforeMonth, Leap;
      YearLength(m.year);
      MonthsBefore(m.year);
      JanuaryIsFirst(m.year + 1);
    } else {
      hide DaysBeforeYear, Leap;
    }
  }

  lemma JanuaryIsFirst(y: nat)
    requires y >= 1
    ensures DaysBeforeMonth(Month(y, 1)) == 0
  {
  }

  /** The next day is the next ordinal: the calendar has no gap and no overlap. */
  lemma NextDayIsNext(d: Date)
    requires RealDate(d)
    ensures RealDate(NextDay(d)) && Ordinal(NextDay(d)) == Ordinal(d) + 1
  {
    if d.day == DaysIn(MonthOf(d)) { MonthLength(MonthOf(d)); }
  }

  lemma {:induction false} AddDaysIs(d: Date, n: nat)
    requires RealDate(d)
    ensures RealDate(AddDays(d, n)) && Ordinal(AddDays(d, n)) == Ordinal(d) + n
    decreases n
  {
    if n > 0 {
      NextDayIsNext(d);
      AddDaysIs(NextDay(d), n - 1);
    }
  }

  // month_bounds

  /** month_bounds: four days after the 28th, back to the first. */
  function MonthBounds(m: Month): (Moment, Moment) {
    (Midnight(FirstOf(m)), Midnight(AddDays(Date(m.year, m.month, 28), 4).(day := 1)))
  }

  lemma AddFour(d: Date)
    ensures AddDays(d, 4) == NextDay(NextDay(NextDay(NextDay(d))))
  {
    hide NextDay;
    var a := NextDay(d);
    var b := NextDay(a);
    assert AddDays(b, 2) == AddDays(NextDay(b), 1) == NextDay(NextDay(b));
    assert AddDays(a, 3) == AddDays(b, 2);
  }

  /** The second bound is the start of the next month, for every length of month and in leap years. */
  lemma MonthBoundsAre(m: Month)
    requires RealMonth(m)
    ensures MonthBounds(m) == (Midnight(FirstOf(m)), Midnight(FirstOf(NextMonth(m))))
    ensures RealMonth(NextMonth(m)) && Start(NextMonth(m)) == Start(m) + DaysIn(m) * DAY
  {
    MonthLength(m);
    var d := Date(m.year, m.month, 28);
    AddFour(d);
    assert DaysIn(NextMonth(m)) >= 28;
  }

  // Months as intervals

  ghost function Least(a: int, b: int): int { if a < b then a else b }

  ghost function Most(a: int, b: int): int { if a > b then a else b }

  /** How much of [from, to) lies in a month. */
  ghost function Overlap(m: Month, from: int, to: int): int
    requires RealMonth(m)
  {
    MonthLength(m);
    Most(0, Least(to, Start(NextMonth(m))) - Most(from, Start(m)))
  }

  ghost function Index(m: Month): nat { m.year * 12 + m.month }

  lemma {:induction false} MonthsApart(a: Month, b: Month)
    requires RealMonth(a) && RealMonth(b) && Index(a) < Index(b)
    ensures RealMonth(NextMonth(a)) && Start(NextMonth(a)) <= Start(b)
    decreases Index(b) - Index(a)
  {
    hide Ordinal, DaysIn, Index, NextMonth;
    MonthLength(a);
    NextIndex(a, b);
    var next := NextMonth(a);
    if next != b {
      MonthLength(next);
      MonthsApart(next, b);
      FirstsApart(next);
    }
  }

  lemma NextIndex(a: Month, b: Month)
    requires RealMonth(a) && RealMonth(b) && Index(a) < Index(b)
    ensures NextMonth(a) == b || Index(a) < Index(NextMonth(a)) < Index(b)
  {
  }

  lemma FirstsApart(m: Month)
    requires RealMonth(m) && RealMonth(NextMonth(m))
    ensures Start(m) <= Start(NextMonth(m))
  {
    hide Ordinal, DaysIn, NextMonth;
    MonthLength(m);
    DayParts(Ordinal(FirstOf(m)), Ordinal(FirstOf(NextMonth(m))), 0);
  }

  lemma MomentInMonth(t: Moment)
    requires RealMoment(t)
    ensures RealMonth(NextMonth(MonthOf(t.date)))
    ensures Start(MonthOf(t.date)) <= Instant(t) < Start(NextMonth(MonthOf(t.date)))
  {
    MonthLength(MonthOf(t.date));
    DayParts(Ordinal(t.date), Ordinal(FirstOf(NextMonth(MonthOf(t.date)))), t.micros);
    DayParts(Ordinal(FirstOf(MonthOf(t.date))), Ordinal(t.date), 0);
  }

  lemma DayParts(a: int, b: int, micros: nat)
    requires micros < DAY
    ensures a < b ==> a * DAY + micros < b * DAY
    ensures a <= b ==> a * DAY <= b * DAY
  {
  }

  /** Year, month, day and time of day, compared in this order. */
  ghost predicate Earlier(a: Moment, b: Moment) {
    if a.date.year != b.date.year then a.date.year < b.date.year
    else if a.date.month != b.date.month then a.date.month < b.date.month
    else if a.date.day != b.date.day then a.date.day < b.date.day
    else a.micros < b.micros
  }

  lemma EarlierIsLess(a: Moment, b: Moment)
    requires RealMoment(a) && RealMoment(b) && Earlier(a, b)
    ensures Instant(a) < Instant(b)
  {
    if MonthOf(a.date) != MonthOf(b.date) {
      MomentInMonth(a);
      MomentInMonth(b);
      MonthsApart(MonthOf(a.date), MonthOf(b.date));
    } else {
      DayParts(Ordinal(a.date), Ordinal(b.date), a.micros);
    }
  }

  /** The instants are ordered as the moments are. */
  lemma InstantsOrdered(a: Moment, b: Moment)
    requires RealMoment(a) && RealMoment(b)
    ensures Earlier(a, b) <==> Instant(a) < Instant(b)
  {
    hide RealMoment, Instant;
    if Earlier(a, b) { EarlierIsLess(a, b); } else if Earlier(b, a) { EarlierIsLess(b, a); }
  }

  /** Within its own month a stretch counts whole; in every other month it counts nothing. */
  lemma OneMonth(m: Month, here: Month, from: int, to: int)
    requires RealMonth(m) && RealMonth(here) && from <= to
    requires RealMonth(NextMonth(here)) && Start(here) <= from && to <= Start(NextMonth(here))
    ensures Overlap(m, from, to) == if m == here then to - from else 0
  {
    hide Start;
    MonthOrder(m);
    MonthOrder(here);
    if Index(m) < Index(here) {
      MonthsApart(m, here);
    } else if Index(here) < Index(m) {
      MonthsApart(here, m);
    } else {
      assert m == here;
    }
  }

  lemma OverlapAdds(m: Month, from: int, at: int, to: int)
    requires RealMonth(m) && from <= at <= to
    ensures Overlap(m, from, to) == Overlap(m, from, at) + Overlap(m, at, to)
  {
    hide Start;
    MonthOrder(m);
  }

  lemma MonthOrder(m: Month)
    requires RealMonth(m)
    ensures RealMonth(NextMonth(m)) && Start(m) < Start(NextMonth(m))
  {
    MonthLength(m);
  }

  // The loop

  datatype Part = Part(month: Month, micros: int)

  ghost function SumParts(parts: seq<Part>): int {
    if parts == [] then 0 else SumParts(parts[..|parts| - 1]) + parts[|parts| - 1].micros
  }

  /** The allocations are exactly the overlaps of a stretch with the months it touches. */
  ghost predicate Covers(allocations: map<Month, int>, from: int, to: int) {
    && (forall m | m in allocations :: RealMonth(m))
    && forall m | RealMonth(m) :: m in allocations <==> Overlap(m, from, to) > 0
  }

  ghost predicate Measures(allocations: map<Month, int>, from: int, to: int) {
    forall m | m in allocations && RealMonth(m) :: allocations[m] == Overlap(m, from, to)
  }

  /** The keys in the order they were written, each once. */
  ghost predicate Written(parts: seq<Part>, allocations: map<Month, int>) {
    && (forall i, j | 0 <= i < j < |parts| :: parts[i].month != parts[j].month)
    && (forall p | p in parts :: p.month in allocations && allocations[p.month] == p.micros)
    && (forall m | m in allocations :: Part(m, allocations[m]) in parts)
  }

  lemma CoverMore(allocations: map<Month, int>, here: Month, from: int, at: int, to: int)
    requires Covers(allocations, from, at) && Measures(allocations, from, at) && from <= at < to
    requires RealMonth(here) && RealMonth(NextMonth(here)) && Start(here) <= at && to <= Start(NextMonth(here))
    requires at == from || at == Start(here)
    ensures here !in allocations
    ensures Covers(allocations[here := to - at], from, to) && Measures(allocations[here := to - at], from, to)
  {
    hide Start;
    NothingYet(here, from, at);
    forall m | RealMonth(m)
      ensures Overlap(m, from, to) == Overlap(m, from, at) + (if m == here then to - at else 0)
    {
      OverlapAdds(m, from, at, to);
      OneMonth(m, here, at, to);
    }
    hide Overlap;
  }

  lemma NothingYet(here: Month, from: int, at: int)
    requires RealMonth(here) && from <= at && (at == from || at == Start(here))
    ensures Overlap(here, from, at) == 0
  {
    MonthOrder(here);
  }

  lemma WriteMore(parts: seq<Part>, allocations: map<Month, int>, here: Month, micros: int)
    requires Written(parts, allocations) && here !in allocations
    ensures Written(parts + [Part(here, micros)], allocations[here := micros])
    ensures SumParts(parts + [Part(here, micros)]) == SumParts(parts) + micros
  {
    var longer := parts + [Part(here, micros)];
    assert longer[..|parts|] == parts;
    forall i, j | 0 <= i < j < |longer| ensures longer[i].month != longer[j].month { assert longer[i] in parts; }
    var more := allocations[here := micros];
    forall m | m in more ensures Part(m, more[m]) in longer {
      if m == here { assert longer[|parts|] == Part(here, micros); } else { assert Part(m, allocations[m]) in parts; }
    }
  }

  /** The loop of normalize: it ends, writes each month once, gives each month exactly its part of the build, and the
      parts add up to the whole. */
  method SplitMonths(start: Moment, end: Moment) returns (allocations: map<Month, int>, ghost parts: seq<Part>)
    requires RealMoment(start) && RealMoment(end) && Instant(start) <= Instant(end)
    ensures Covers(allocations, Instant(start), Instant(end)) && Measures(allocations, Instant(start), Instant(end))
    ensures Written(parts, allocations) && SumParts(parts) == Instant(end) - Instant(start)
  {
    hide Start, Covers, Measures, Written, SumParts, DaysIn, AddDays, Ordinal;
    allocations, parts := map[], [];
    var cursor := start;
    NothingCovered(Instant(start));
    while Instant(cursor) < Instant(end)
      invariant RealMoment(cursor) && Instant(start) <= Instant(cursor) <= Instant(end)
      invariant Covers(allocations, Instant(start), Instant(cursor))
                && Measures(allocations, Instant(start), Instant(cursor))
      invariant Written(parts, allocations) && SumParts(parts) == Instant(cursor) - Instant(start)
      invariant cursor == start || cursor == end || cursor == Midnight(FirstOf(MonthOf(cursor.date)))
      decreases Instant(end) - Instant(cursor)
    {
      var month := MonthOf(cursor.date);
      MonthBoundsAre(month);
      MomentInMonth(cursor);
      FirstIsReal(month);
      FirstIsReal(NextMonth(month));
      var next := MonthBounds(month).1;
      var stop := if Instant(end) < Instant(next) then end else next;
      CoverMore(allocations, month, Instant(start), Instant(cursor), Instant(stop));
      WriteMore(parts, allocations, month, Instant(stop) - Instant(cursor));
      parts := parts + [Part(month, Instant(stop) - Instant(cursor))];
      allocations := allocations[month := Instant(stop) - Instant(cursor)];
      cursor := stop;
    }
  }

  lemma FirstIsReal(m: Month)
    requires RealMonth(m)
    ensures RealMoment(Midnight(FirstOf(m))) && Instant(Midnight(FirstOf(m))) == Start(m)
  {
  }

  lemma NothingCovered(at: int)
    ensures Covers(map[], at, at) && Measures(map[], at, at) && Written([], map[]) && SumParts([]) == 0
  {
    hide Start;
  }

  /** The allocations of a build: its months, or its creation month with nothing when it took no time; refused when it
      finished before it started. */
  method Allocations(started: Option<Moment>, finished: Option<Moment>, created: Moment)
    returns (r: Option<map<Month, int>>)
    requires RealMoment(created) && (started.Some? ==> RealMoment(started.value))
             && (finished.Some? ==> RealMoment(finished.value))
    ensures r.None? <==> started.Some? && finished.Some? && Instant(finished.value) < Instant(started.value)
    ensures started.Some? && finished.Some? && Instant(started.value) < Instant(finished.value) ==>
              && r.Some? && Covers(r.value, Instant(started.value), Instant(finished.value))
              && Measures(r.value, Instant(started.value), Instant(finished.value))
    ensures r.Some? && (started.None? || finished.None? || Instant(started.value) == Instant(finished.value)) ==>
              r.value == map[MonthOf(created.date) := 0]
  {
    hide Start, Covers, Measures, Written, SumParts, Ordinal, DaysIn;
    var allocations: map<Month, int> := map[];
    if started.Some? && finished.Some? {
      if Instant(finished.value) < Instant(started.value) { return None; }
      ghost var parts;
      allocations, parts := SplitMonths(started.value, finished.value);
      NotEmpty(allocations, parts);
      NoParts(allocations, Instant(started.value));
    }
    if allocations == map[] { allocations := map[MonthOf(created.date) := 0]; }
    return Some(allocations);
  }

  lemma NotEmpty(allocations: map<Month, int>, parts: seq<Part>)
    requires Written(parts, allocations)
    ensures SumParts(parts) != 0 ==> allocations != map[]
  {
    if parts != [] { assert parts[0] in parts && parts[0].month in allocations; }
  }

  lemma NoParts(allocations: map<Month, int>, at: int)
    ensures Covers(allocations, at, at) ==> allocations == map[]
  {
    hide Start;
    forall m | RealMonth(m) ensures Overlap(m, at, at) == 0 { MonthOrder(m); }
  }
}
