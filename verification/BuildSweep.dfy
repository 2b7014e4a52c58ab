/** The resumable inventory sweep: the cursor loop of reconcile in
    src/eng_platform_api/services/cloud_build_usage.py:350-396. Any number of runs may be under way at once, each may
    stop between any two statements, and builds keep appearing in the listing, some of them long after they were
    created. */
module BuildSweep {
  /** Microseconds, the resolution of the timestamps. */
  type Time = int
  type RunId = nat

  /** A build, and when it first shows in listings. */
  datatype Build = Build(id: string, created: Time, visible: Time)

  /** Where a listing stands: at its start, or after a page, with these builds still to come. */
  datatype Token = First | After(rest: set<Build>)

  /** The checkpoint of a region. `from` is where the coverage behind it begins: the start of the first window. */
  datatype Cursor =
    | Unset
    | Idle(watermark: Time, from: Time)
    | Sweeping(since: Time, until: Time, token: Token, from: Time)

  /** A run: about to read the checkpoint, about to list a page, or storing a page before it writes the checkpoint. */
  datatype Run =
    | Starting(now: Time, monthStart: Time)
    | Listing(cursor: Cursor, pages: nat)
    | Storing(next: Cursor, todo: set<Build>, pages: nat)

  datatype State = State(inventory: set<Build>, ledger: set<Build>, cursor: Cursor, runs: map<RunId, Run>, clock: Time)

  const OVERLAP := 86_400_000_000
  const PAGES := 5

  ghost function Window(inventory: set<Build>, since: Time, until: Time): set<Build> {
    set b | b in inventory && since <= b.created <= until
  }

  /** The builds a sweep has not been shown yet. */
  ghost function Left(inventory: set<Build>, cursor: Cursor): set<Build>
    requires cursor.Sweeping?
  {
    if cursor.token.First? then Window(inventory, cursor.since, cursor.until) else cursor.token.rest
  }

  /** The cursor a run continues from: the checkpoint itself, or a new window that begins a day before the watermark. */
  ghost function Resumed(stored: Cursor, now: Time, monthStart: Time): Cursor {
    match stored
    case Unset => Sweeping(monthStart, now, First, monthStart)
    case Idle(watermark, from) => Sweeping(watermark - OVERLAP, now, First, from)
    case Sweeping(_, _, _, _) => stored
  }

  /** The cursor after a page: the same window further on, or the watermark after the last page. */
  ghost function Advanced(cursor: Cursor, last: bool, rest: set<Build>): Cursor
    requires cursor.Sweeping?
  {
    if last then Idle(cursor.until, cursor.from) else cursor.(token := After(rest))
  }

  // The steps

  /** A build shows up in the listings, at the present time. */
  ghost predicate Publish(s: State, t: State, b: Build) {
    b.visible == s.clock && t == s.(inventory := s.inventory + {b})
  }

  ghost predicate Tick(s: State, t: State) { t.clock >= s.clock && t == s.(clock := t.clock) }

  /** A run begins: it notes the time, and time moves on. */
  ghost predicate Begin(s: State, t: State, r: RunId, monthStart: Time) {
    && r !in s.runs && monthStart <= s.clock
    && t == s.(runs := s.runs[r := Starting(s.clock, monthStart)], clock := s.clock + 1)
  }

  ghost predicate ReadCursor(s: State, t: State, r: RunId) {
    && r in s.runs && s.runs[r].Starting?
    && t == s.(runs := s.runs[r := Listing(Resumed(s.cursor, s.runs[r].now, s.runs[r].monthStart), PAGES)])
  }

  /** A page of the listing, what the next token still promises, and whether there is a next token at all. Builds that
      appeared meanwhile may be in the page, in the rest, or in neither. */
  ghost predicate Page(s: State, t: State, r: RunId, page: set<Build>, rest: set<Build>, last: bool) {
    && r in s.runs && s.runs[r].Listing? && s.runs[r].cursor.Sweeping? && s.runs[r].pages > 0
    && page + rest <= Window(s.inventory, s.runs[r].cursor.since, s.runs[r].cursor.until)
    && Left(s.inventory, s.runs[r].cursor) <= page + rest && (last ==> rest == {})
    && t == s.(runs := s.runs[r := Storing(Advanced(s.runs[r].cursor, last, rest), page, s.runs[r].pages - 1)])
  }

  /** put_build of one row of the page. */
  ghost predicate Put(s: State, t: State, r: RunId, b: Build) {
    && r in s.runs && s.runs[r].Storing? && b in s.runs[r].todo
    && t == s.(ledger := s.ledger + {b}, runs := s.runs[r := s.runs[r].(todo := s.runs[r].todo - {b})])
  }

  /** The checkpoint is written once the whole page is stored. */
  ghost predicate WriteCursor(s: State, t: State, r: RunId) {
    && r in s.runs && s.runs[r].Storing? && s.runs[r].todo == {}
    && t == s.(cursor := s.runs[r].next, runs := s.runs[r := Listing(s.runs[r].next, s.runs[r].pages)])
  }

  /** A run ends, at the end of its work or by a crash at any point of it. */
  ghost predicate End(s: State, t: State, r: RunId) { t == s.(runs := s.runs - {r}) }

  ghost predicate Step(s: State, t: State) {
    || (exists b :: Publish(s, t, b))
    || Tick(s, t)
    || (exists r, m :: Begin(s, t, r, m))
    || (exists r :: ReadCursor(s, t, r) || WriteCursor(s, t, r) || End(s, t, r))
    || (exists r, page, rest, last :: Page(s, t, r, page, rest, last))
    || (exists r, b :: Put(s, t, r, b))
  }

  ghost predicate Initial(s: State) { s.cursor == Unset && s.runs == map[] }

  ghost predicate History(h: seq<State>) {
    h != [] && Initial(h[0]) && forall i | 0 <= i < |h| - 1 :: Step(h[i], h[i + 1])
  }

  // The invariant

  /** Listed within the overlap of the windows, or in the tick after it. */
  ghost predicate Timely(b: Build) { b.visible <= b.created + OVERLAP + 1 }

  /** Created and listed by a time, and late by no more than the windows allow for. */
  ghost predicate Owed(b: Build, from: Time, end: Time) { from <= b.created <= end && b.visible <= end && Timely(b) }

  /** Everything a cursor has behind it is in these rows. */
  ghost predicate Covered(cursor: Cursor, inventory: set<Build>, rows: set<Build>, clock: Time) {
    match cursor
    case Unset => true
    case Idle(watermark, from) =>
      watermark < clock && forall b | b in inventory && Owed(b, from, watermark) :: b in rows
    case Sweeping(since, until, token, from) =>
      && until < clock
      && forall b | b in inventory && Owed(b, from, until) :: b in rows || b in Left(inventory, cursor)
  }

  ghost predicate GoodRun(run: Run, inventory: set<Build>, ledger: set<Build>, clock: Time) {
    match run
    case Starting(now, _) => now < clock
    case Listing(cursor, _) => Covered(cursor, inventory, ledger, clock)
    case Storing(next, todo, _) => Covered(next, inventory, ledger + todo, clock)
  }

  ghost predicate Inv(s: State) {
    && Covered(s.cursor, s.inventory, s.ledger, s.clock)
    && forall r | r in s.runs :: GoodRun(s.runs[r], s.inventory, s.ledger, s.clock)
  }

  lemma CoveredGrows(cursor: Cursor, inventory: set<Build>, rows: set<Build>, clock: Time, rows': set<Build>,
                     clock': Time)
    requires Covered(cursor, inventory, rows, clock) && rows <= rows' && clock <= clock'
    ensures Covered(cursor, inventory, rows', clock')
  {
  }

  /** A build that shows up now is owed by no window that is already fixed. */
  lemma CoveredPublish(cursor: Cursor, inventory: set<Build>, rows: set<Build>, clock: Time, b: Build)
    requires Covered(cursor, inventory, rows, clock) && b.visible == clock
    ensures Covered(cursor, inventory + {b}, rows, clock)
  {
    if cursor.Sweeping? {
      assert Window(inventory, cursor.since, cursor.until) <= Window(inventory + {b}, cursor.since, cursor.until);
    }
  }

  lemma CoveredResumed(stored: Cursor, inventory: set<Build>, rows: set<Build>, clock: Time, now: Time,
                       monthStart: Time)
    requires Covered(stored, inventory, rows, clock) && now < clock
    ensures Covered(Resumed(stored, now, monthStart), inventory, rows, clock)
  {
  }

  lemma CoveredAdvanced(cursor: Cursor, inventory: set<Build>, rows: set<Build>, clock: Time, page: set<Build>,
                        rest: set<Build>, last: bool)
    requires cursor.Sweeping? && Covered(cursor, inventory, rows, clock)
    requires Left(inventory, cursor) <= page + rest && (last ==> rest == {})
    ensures Covered(Advanced(cursor, last, rest), inventory, rows + page, clock)
  {
  }

  lemma RunsKeep(s: State, ledger: set<Build>, clock: Time)
    requires Inv(s) && s.ledger <= ledger && s.clock <= clock
    ensures Covered(s.cursor, s.inventory, ledger, clock)
    ensures forall r | r in s.runs :: GoodRun(s.runs[r], s.inventory, ledger, clock)
  {
    hide Covered;
    CoveredGrows(s.cursor, s.inventory, s.ledger, s.clock, ledger, clock);
    forall r | r in s.runs ensures GoodRun(s.runs[r], s.inventory, ledger, clock) {
      match s.runs[r]
      case Starting(_, _) =>
      case Listing(cursor, _) => CoveredGrows(cursor, s.inventory, s.ledger, s.clock, ledger, clock);
      case Storing(next, todo, _) => CoveredGrows(next, s.inventory, s.ledger + todo, s.clock, ledger + todo, clock);
    }
  }

  lemma InvPublish(s: State, t: State, b: Build)
    requires Inv(s) && Publish(s, t, b)
    ensures Inv(t)
  {
    hide Covered;
    CoveredPublish(s.cursor, s.inventory, s.ledger, s.clock, b);
    forall r | r in t.runs ensures GoodRun(t.runs[r], t.inventory, t.ledger, t.clock) {
      match s.runs[r]
      case Starting(_, _) =>
      case Listing(cursor, _) => CoveredPublish(cursor, s.inventory, s.ledger, s.clock, b);
      case Storing(next, todo, _) => CoveredPublish(next, s.inventory, s.ledger + todo, s.clock, b);
    }
  }

  lemma InvRun(s: State, t: State, r: RunId)
    requires Inv(s) && (ReadCursor(s, t, r) || WriteCursor(s, t, r) || End(s, t, r))
    ensures Inv(t)
  {
    hide Covered;
    if ReadCursor(s, t, r) {
      CoveredResumed(s.cursor, s.inventory, s.ledger, s.clock, s.runs[r].now, s.runs[r].monthStart);
    } else if WriteCursor(s, t, r) {
      assert GoodRun(s.runs[r], s.inventory, s.ledger, s.clock);
      assert s.ledger + s.runs[r].todo == s.ledger;
    }
  }

  lemma InvPage(s: State, t: State, r: RunId, page: set<Build>, rest: set<Build>, last: bool)
    requires Inv(s) && Page(s, t, r, page, rest, last)
    ensures Inv(t)
  {
    hide Covered, Left;
    assert GoodRun(s.runs[r], s.inventory, s.ledger, s.clock);
    CoveredAdvanced(s.runs[r].cursor, s.inventory, s.ledger, s.clock, page, rest, last);
  }

  lemma InvPut(s: State, t: State, r: RunId, b: Build)
    requires Inv(s) && Put(s, t, r, b)
    ensures Inv(t)
  {
    hide Covered;
    RunsKeep(s, s.ledger + {b}, s.clock);
    var run := s.runs[r];
    assert GoodRun(run, s.inventory, s.ledger, s.clock);
    assert s.ledger + {b} + (run.todo - {b}) == s.ledger + run.todo;
  }

  lemma InvStep(s: State, t: State)
    requires Inv(s) && Step(s, t)
    ensures Inv(t) && s.ledger <= t.ledger
  {
    hide Inv;
    if b :| Publish(s, t, b) {
      InvPublish(s, t, b);
    } else if Tick(s, t) {
      RunsKeep(s, s.ledger, t.clock);
      InvFrom(t);
    } else if r, m :| Begin(s, t, r, m) {
      RunsKeep(s, s.ledger, t.clock);
      InvFrom(t);
    } else if r :| ReadCursor(s, t, r) || WriteCursor(s, t, r) || End(s, t, r) {
      InvRun(s, t, r);
    } else if r, page, rest, last :| Page(s, t, r, page, rest, last) {
      InvPage(s, t, r, page, rest, last);
    } else {
      var r, b :| Put(s, t, r, b);
      InvPut(s, t, r, b);
    }
  }

  lemma InvFrom(t: State)
    requires Covered(t.cursor, t.inventory, t.ledger, t.clock)
    requires forall r | r in t.runs :: GoodRun(t.runs[r], t.inventory, t.ledger, t.clock)
    ensures Inv(t)
  {
  }

  lemma {:induction false} InvAlways(h: seq<State>, i: nat)
    requires History(h) && i < |h|
    ensures Inv(h[i])
  {
    hide Step, Inv;
    if i == 0 {
      InvFrom(h[0]);
    } else {
      InvAlways(h, i - 1);
      assert Step(h[i - 1], h[i - 1 + 1]);
      InvStep(h[i - 1], h[i]);
    }
  }

  /** Whenever the checkpoint holds a watermark, a build created since the start of the first window that had shown up
      by the watermark is in the ledger, if it was listed in time: the five-page limit, crashes, overlapping runs and
      late listings of other builds lose nothing. */
  lemma NothingMissed(h: seq<State>, i: nat, b: Build)
    requires History(h) && i < |h| && h[i].cursor.Idle? && b in h[i].inventory && Timely(b)
    requires h[i].cursor.from <= b.created <= h[i].cursor.watermark && b.visible <= h[i].cursor.watermark
    ensures b in h[i].ledger
  {
    hide Step;
    InvAlways(h, i);
  }

  /** So once the watermark is past the overlap after its creation, such a build is in the ledger. */
  lemma NothingMissedAfterADay(h: seq<State>, i: nat, b: Build)
    requires History(h) && i < |h| && h[i].cursor.Idle? && b in h[i].inventory && Timely(b)
    requires h[i].cursor.from <= b.created && b.created + OVERLAP < h[i].cursor.watermark
    ensures b in h[i].ledger
  {
    hide Step;
    NothingMissed(h, i, b);
  }

  // What the ledger and the coverage may be

  /** The coverage begins at one of the month starts that runs were given, and no window reaches further back than the
      overlap before the first of them. */
  ghost predicate Within(c: Cursor, lo: Time, hi: Time, clock: Time) {
    match c
    case Unset => true
    case Idle(watermark, from) => lo <= from <= hi && lo <= watermark < clock
    case Sweeping(since, until, _, from) => lo <= from <= hi && lo - OVERLAP <= since && lo <= until < clock
  }

  /** A build that was listed in such a window. */
  ghost predicate Found(b: Build, s: State, lo: Time) { b in s.inventory && lo - OVERLAP <= b.created < s.clock }

  ghost predicate SoundRun(run: Run, s: State, lo: Time, hi: Time) {
    match run
    case Starting(now, monthStart) => lo <= monthStart <= hi && monthStart <= now < s.clock
    case Listing(cursor, _) => Within(cursor, lo, hi, s.clock)
    case Storing(next, todo, _) => Within(next, lo, hi, s.clock) && forall b | b in todo :: Found(b, s, lo)
  }

  ghost predicate Sound(s: State, start: State, lo: Time, hi: Time) {
    && Within(s.cursor, lo, hi, s.clock)
    && (forall r | r in s.runs :: SoundRun(s.runs[r], s, lo, hi))
    && forall b | b in s.ledger :: b in start.ledger || Found(b, s, lo)
  }

  lemma SoundPublish(s: State, t: State, start: State, lo: Time, hi: Time)
    requires Sound(s, start, lo, hi)
    requires t.inventory >= s.inventory && t.clock >= s.clock && t == s.(inventory := t.inventory, clock := t.clock)
    ensures Sound(t, start, lo, hi)
  {
    forall r | r in t.runs ensures SoundRun(t.runs[r], t, lo, hi) { assert SoundRun(s.runs[r], s, lo, hi); }
  }

  lemma SoundBegin(s: State, t: State, r: RunId, m: Time, start: State, lo: Time, hi: Time)
    requires Sound(s, start, lo, hi) && Begin(s, t, r, m) && lo <= m <= hi
    ensures Sound(t, start, lo, hi)
  {
    var later := s.(clock := t.clock);
    SoundPublish(s, later, start, lo, hi);
  }

  lemma SoundOther(s: State, t: State, r: RunId, start: State, lo: Time, hi: Time)
    requires Sound(s, start, lo, hi) && (ReadCursor(s, t, r) || WriteCursor(s, t, r) || End(s, t, r))
    ensures Sound(t, start, lo, hi)
  {
    assert r in s.runs ==> SoundRun(s.runs[r], s, lo, hi);
    forall q | q in t.runs && q != r ensures SoundRun(t.runs[q], t, lo, hi) { assert SoundRun(s.runs[q], s, lo, hi); }
  }

  lemma SoundPage(s: State, t: State, r: RunId, page: set<Build>, rest: set<Build>, last: bool, start: State, lo: Time,
                  hi: Time)
    requires Sound(s, start, lo, hi) && Page(s, t, r, page, rest, last)
    ensures Sound(t, start, lo, hi)
  {
    assert SoundRun(s.runs[r], s, lo, hi);
    forall q | q in t.runs && q != r ensures SoundRun(t.runs[q], t, lo, hi) { assert SoundRun(s.runs[q], s, lo, hi); }
    var cursor := s.runs[r].cursor;
    forall b | b in page ensures Found(b, t, lo) { assert b in Window(s.inventory, cursor.since, cursor.until); }
  }

  lemma SoundPut(s: State, t: State, r: RunId, b: Build, start: State, lo: Time, hi: Time)
    requires Sound(s, start, lo, hi) && Put(s, t, r, b)
    ensures Sound(t, start, lo, hi)
  {
    assert SoundRun(s.runs[r], s, lo, hi);
    forall q | q in t.runs && q != r ensures SoundRun(t.runs[q], t, lo, hi) { assert SoundRun(s.runs[q], s, lo, hi); }
  }

  ghost predicate StartedBetween(s: State, t: State, lo: Time, hi: Time) {
    forall r, m | Begin(s, t, r, m) :: lo <= m <= hi
  }

  lemma SoundStep(s: State, t: State, start: State, lo: Time, hi: Time)
    requires Sound(s, start, lo, hi) && Step(s, t) && StartedBetween(s, t, lo, hi)
    ensures Sound(t, start, lo, hi)
  {
    hide Sound, Begin;
    if b :| Publish(s, t, b) {
      SoundPublish(s, t, start, lo, hi);
    } else if Tick(s, t) {
      SoundPublish(s, t, start, lo, hi);
    } else if r, m :| Begin(s, t, r, m) {
      SoundBegin(s, t, r, m, start, lo, hi);
    } else if r :| ReadCursor(s, t, r) || WriteCursor(s, t, r) || End(s, t, r) {
      SoundOther(s, t, r, start, lo, hi);
    } else if r, page, rest, last :| Page(s, t, r, page, rest, last) {
      SoundPage(s, t, r, page, rest, last, start, lo, hi);
    } else {
      var r, b :| Put(s, t, r, b);
      SoundPut(s, t, r, b, start, lo, hi);
    }
  }

  /** The month starts that the runs of a history were given lie between these. */
  ghost predicate Started(h: seq<State>, lo: Time, hi: Time) {
    forall i | 0 <= i < |h| - 1 :: StartedBetween(h[i], h[i + 1], lo, hi)
  }

  lemma {:induction false} SoundAlways(h: seq<State>, i: nat, lo: Time, hi: Time)
    requires History(h) && i < |h| && Started(h, lo, hi)
    ensures Sound(h[i], h[0], lo, hi)
  {
    hide Step, StartedBetween, Sound;
    if i == 0 {
      SoundFirst(h[0], lo, hi);
    } else {
      SoundAlways(h, i - 1, lo, hi);
      assert Step(h[i - 1], h[i - 1 + 1]) && StartedBetween(h[i - 1], h[i - 1 + 1], lo, hi);
      SoundStep(h[i - 1], h[i], h[0], lo, hi);
    }
  }

  lemma SoundFirst(s: State, lo: Time, hi: Time)
    requires Initial(s)
    ensures Sound(s, s, lo, hi)
  {
  }

  /** Nothing is invented: whatever the ledger holds it held at the start, or the inventory listed it, created within a
      window. And the coverage begins where the first window was made to begin. */
  lemma NothingInvented(h: seq<State>, i: nat, lo: Time, hi: Time)
    requires History(h) && i < |h| && Started(h, lo, hi)
    ensures forall b | b in h[i].ledger ::
              b in h[0].ledger || (b in h[i].inventory && lo - OVERLAP <= b.created < h[i].clock)
    ensures h[i].cursor.Idle? ==> lo <= h[i].cursor.from <= hi && lo <= h[i].cursor.watermark < h[i].clock
  {
    hide Step, StartedBetween;
    SoundAlways(h, i, lo, hi);
  }

  // How late a listing may be

  ghost predicate Missed(h: seq<State>, i: nat, b: Build) {
    && History(h) && i < |h| && h[i].cursor.Idle? && b in h[i].inventory && b !in h[i].ledger
    && h[i].cursor.from <= b.created <= h[i].cursor.watermark && b.visible <= h[i].cursor.watermark
  }

  /** A sweep that shows no build ends with this watermark. */
  lemma EmptySweep(s: State, r: RunId, monthStart: Time) returns (h: seq<State>)
    requires r !in s.runs && monthStart <= s.clock && !s.cursor.Sweeping?
    requires var c := Resumed(s.cursor, s.clock, monthStart); Window(s.inventory, c.since, c.until) == {}
    ensures |h| == 5 && h[0] == s && forall i | 0 <= i < 4 :: Step(h[i], h[i + 1])
    ensures h[4].cursor == Idle(s.clock, Resumed(s.cursor, s.clock, monthStart).from)
    ensures h[4].inventory == s.inventory && h[4].ledger == s.ledger && h[4].clock == s.clock + 1
    ensures h[4].runs.Keys == s.runs.Keys + {r}
  {
    var c := Resumed(s.cursor, s.clock, monthStart);
    var s1 := s.(runs := s.runs[r := Starting(s.clock, monthStart)], clock := s.clock + 1);
    var s2 := s1.(runs := s1.runs[r := Listing(c, PAGES)]);
    var s3 := s2.(runs := s2.runs[r := Storing(Advanced(c, true, {}), {}, PAGES - 1)]);
    var s4 := s3.(cursor := s3.runs[r].next, runs := s3.runs[r := Listing(s3.runs[r].next, PAGES - 1)]);
    hide Step;
    assert Begin(s, s1, r, monthStart);
    TookBegin(s, s1, r, monthStart);
    assert ReadCursor(s1, s2, r);
    TookRun(s1, s2, r);
    assert Page(s2, s3, r, {}, {}, true);
    TookPage(s2, s3, r);
    assert WriteCursor(s3, s4, r);
    TookRun(s3, s4, r);
    h := [s, s1, s2, s3, s4];
  }

  lemma TookBegin(s: State, t: State, r: RunId, m: Time)
    requires Begin(s, t, r, m)
    ensures Step(s, t)
  {
    hide Begin, Tick;
  }

  lemma TookRun(s: State, t: State, r: RunId)
    requires ReadCursor(s, t, r) || WriteCursor(s, t, r)
    ensures Step(s, t)
  {
    hide ReadCursor, WriteCursor, Tick;
  }

  lemma TookPage(s: State, t: State, r: RunId)
    requires Page(s, t, r, {}, {}, true)
    ensures Step(s, t)
  {
    hide Page, Tick;
  }

  lemma TookPublish(s: State, t: State, b: Build)
    requires Publish(s, t, b)
    ensures Step(s, t)
  {
    hide Publish, Tick;
  }

  /** A build listed later than that can be missed: two sweeps, the first of which ends before the build is listed, the
      second of which begins too late to list it. */
  lemma LateIsMissed(b: Build) returns (h: seq<State>)
    requires !Timely(b)
    ensures h != [] && Missed(h, |h| - 1, b)
  {
    var n := b.created + OVERLAP + 1;
    var first := State({}, {}, Unset, map[], n);
    var a := EmptySweep(first, 0, b.created);
    var later := a[4].(clock := b.visible);
    var listed := later.(inventory := {b});
    assert later.inventory + {b} == {b};
    var z := EmptySweep(listed, 1, b.created);
    hide Step;
    assert Step(a[4], later) by { assert Tick(a[4], later); TookTick(a[4], later); }
    TookPublish(later, listed, b);
    h := a + [later] + z;
    Joined(a, later, z);
    assert h[|h| - 1] == z[4] && h[0] == first;
  }

  lemma Joined(a: seq<State>, s: State, z: seq<State>)
    requires |a| == |z| == 5 && Step(a[4], s) && Step(s, z[0])
    requires forall i | 0 <= i < 4 :: Step(a[i], a[i + 1])
    requires forall i | 0 <= i < 4 :: Step(z[i], z[i + 1])
    ensures forall i | 0 <= i < 10 :: Step((a + [s] + z)[i], (a + [s] + z)[i + 1])
  {
    hide Step;
    var h := a + [s] + z;
    assert h[4] == a[4] && h[5] == s && h[6] == z[0];
    forall i | 0 <= i < 10 ensures Step(h[i], h[i + 1]) {
      if i < 4 {
        assert h[i] == a[i] && h[i + 1] == a[i + 1];
      } else if i > 5 {
        assert h[i] == z[i - 6] && h[i + 1] == z[i - 6 + 1];
      }
    }
  }

  lemma TookTick(s: State, t: State)
    requires Tick(s, t)
    ensures Step(s, t)
  {
    hide Tick;
  }

  /** No build that is listed at most so late is ever missed. */
  ghost predicate SafeLateness(late: Time) {
    forall h, i: nat, b: Build | b.visible <= b.created + late :: !Missed(h, i, b)
  }

  /** The overlap is exactly as long as it has to be: the lateness it forgives is a day and the tick after it. */
  lemma ExactLateness(late: Time)
    ensures SafeLateness(late) <==> late <= OVERLAP + 1
  {
    hide History;
    if late <= OVERLAP + 1 {
      forall h, i: nat, b: Build | b.visible <= b.created + late ensures !Missed(h, i, b) {
        if Missed(h, i, b) { NothingMissed(h, i, b); }
      }
    } else {
      var b := Build("late", 0, late);
      var h := LateIsMissed(b);
    }
  }
}
