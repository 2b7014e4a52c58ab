/** The transactional build ledger of src/eng_platform_api/services/cloud_build_usage_store.py:56-134. Each update is
    atomic, so concurrent callers amount to some sequence of updates. A transaction that does not commit is run again,
    and the transform of put_build changes the very row it was given, so a later attempt starts from what earlier ones
    did. */
module BuildLedger {
  type Key = string

  datatype Option<+T> = None | Some(value: T)

  /** A ledger row; the remaining fields do not take part in merging. */
  datatype Row = Row(key: Key, complete: bool, observedAt: int, category: string, execution: string, rest: nat)

  datatype Throttle = Throttle(claim: nat, nextDue: int)

  const OTHER := "other"

  ghost predicate Linked(row: Row) { row.category != OTHER && row.execution != "" }

  /** What normalize produces: a category other than "other" comes with its execution. */
  ghost predicate WellFormed(row: Row) { row.category != OTHER ==> row.execution != "" }

  /** The transform of put_build. */
  ghost function Merge(current: Option<Row>, row: Row): Row {
    match current
    case None => row
    case Some(stored) =>
      if stored.complete && !row.complete then stored
      else if stored.observedAt > row.observedAt then stored
      else if Linked(stored) && row.category == OTHER
      then row.(category := stored.category, execution := stored.execution)
      else row
  }

  /** What the transform leaves of the row it was given. */
  ghost function Changed(current: Option<Row>, row: Row): Row {
    if current.None? || (current.value.complete && !row.complete) || current.value.observedAt > row.observedAt then row
    else if Linked(current.value) && row.category == OTHER
    then row.(category := current.value.category, execution := current.value.execution)
    else row
  }

  /** The row after attempts that saw these rows and did not commit. */
  ghost function Carried(row: Row, seen: seq<Option<Row>>): Row
    decreases |seen|
  {
    if seen == [] then row else Changed(seen[|seen| - 1], Carried(row, seen[..|seen| - 1]))
  }

  /** A call of put_build: its row, and what its attempts saw that did not commit. */
  datatype Put = Put(row: Row, seen: seq<Option<Row>>)

  ghost function MergeAll(current: Option<Row>, puts: seq<Put>): Option<Row>
    decreases |puts|
  {
    if puts == [] then current else MergeAll(Some(Merge(current, Carried(puts[0].row, puts[0].seen))), puts[1..])
  }

  /** The row as it was observed, without what a merge may carry over. */
  ghost predicate SameObservation(a: Row, b: Row) {
    a.key == b.key && a.complete == b.complete && a.observedAt == b.observedAt && a.rest == b.rest
  }

  /** However often an attempt is run again, the observation stays, and a row that was well formed is. */
  lemma {:induction false} CarriedKeeps(row: Row, seen: seq<Option<Row>>)
    ensures SameObservation(Carried(row, seen), row)
    ensures WellFormed(row) ==> WellFormed(Carried(row, seen))
    ensures Linked(row) ==> Carried(row, seen) == row
    decreases |seen|
  {
    if seen != [] { CarriedKeeps(row, seen[..|seen| - 1]); }
  }

  lemma MergeKeeps(stored: Row, row: Row)
    requires WellFormed(row)
    ensures var merged := Merge(Some(stored), row);
            && (stored.complete ==> merged.complete) && stored.observedAt <= merged.observedAt
            && (Linked(stored) ==> Linked(merged))
            && (SameObservation(merged, stored) || SameObservation(merged, row))
  {
  }

  /** Over any sequence of merges on a key, with any attempts run again, a row stays complete, is never observed earlier
      and keeps a verified link; and what it holds is one of the observations that were put. */
  lemma {:induction false} MergeRun(current: Row, puts: seq<Put>)
    requires forall p | p in puts :: WellFormed(p.row)
    ensures MergeAll(Some(current), puts).Some?
    ensures var end := MergeAll(Some(current), puts).value;
            && (current.complete ==> end.complete) && current.observedAt <= end.observedAt
            && (Linked(current) ==> Linked(end))
            && (SameObservation(end, current) || exists p :: p in puts && SameObservation(end, p.row))
    decreases |puts|
  {
    hide Carried, Merge;
    if puts != [] {
      assert puts[0] in puts;
      forall p | p in puts[1..] ensures WellFormed(p.row) && p in puts { }
      var row := Carried(puts[0].row, puts[0].seen);
      CarriedKeeps(puts[0].row, puts[0].seen);
      MergeKeeps(current, row);
      MergeRun(Merge(Some(current), row), puts[1..]);
    }
  }

  /** Nothing but this row may count as finished, unless the row itself does. */
  ghost predicate Decides(current: Option<Row>, puts: seq<Put>, k: nat)
    requires k < |puts|
  {
    puts[k].row.complete
    || ((current.Some? ==> !current.value.complete) && forall i | 0 <= i < |puts| :: !puts[i].row.complete)
  }

  /** What was observed last, and last of all that was observed then, is what the ledger ends with, if it is finished or
      nothing is: whatever else was put before or after it. A link it came with stays as it was. */
  lemma {:induction false} LastWins(current: Option<Row>, puts: seq<Put>, k: nat)
    requires k < |puts| && Decides(current, puts, k)
    requires current.Some? ==> current.value.observedAt <= puts[k].row.observedAt
    requires forall i | 0 <= i < k :: puts[i].row.observedAt <= puts[k].row.observedAt
    requires forall i | k < i < |puts| :: puts[i].row.observedAt < puts[k].row.observedAt
    ensures MergeAll(current, puts).Some? && SameObservation(MergeAll(current, puts).value, puts[k].row)
    ensures Linked(puts[k].row) ==> MergeAll(current, puts).value == puts[k].row
    decreases |puts|
  {
    hide Carried;
    CarriedKeeps(puts[0].row, puts[0].seen);
    var next := Merge(current, Carried(puts[0].row, puts[0].seen));
    if k == 0 {
      assert SameObservation(next, puts[0].row);
      StaysLast(next, puts[1..]);
    } else {
      assert next.observedAt <= puts[k].row.observedAt;
      LastWins(Some(next), puts[1..], k - 1);
    }
  }

  lemma {:induction false} StaysLast(current: Row, puts: seq<Put>)
    requires forall i | 0 <= i < |puts| :: puts[i].row.observedAt < current.observedAt
    ensures MergeAll(Some(current), puts) == Some(current)
    decreases |puts|
  {
    hide Carried;
    if puts != [] {
      CarriedKeeps(puts[0].row, puts[0].seen);
      assert Merge(Some(current), Carried(puts[0].row, puts[0].seen)) == current;
      StaysLast(current, puts[1..]);
    }
  }

  // Throttling

  /** One call of claim, with the fresh token it drew. */
  datatype Attempt = Attempt(token: nat, now: int, interval: int)

  /** The transform of claim. */
  ghost function Reserve(current: Throttle, a: Attempt): Throttle {
    if current.nextDue > a.now then current else Throttle(a.token, a.now + a.interval)
  }

  ghost predicate Granted(current: Throttle, a: Attempt) { Reserve(current, a).claim == a.token }

  ghost function After(current: Throttle, attempts: seq<Attempt>): Throttle
    decreases |attempts|
  {
    if attempts == [] then current else After(Reserve(current, attempts[0]), attempts[1..])
  }

  /** Tokens are drawn afresh, and the intervals are not negative. */
  ghost predicate Fresh(current: Throttle, attempts: seq<Attempt>) {
    && (forall i, j | 0 <= i < j < |attempts| :: attempts[i].token != attempts[j].token)
    && (forall i | 0 <= i < |attempts| :: attempts[i].token != current.claim && attempts[i].interval >= 0)
  }

  lemma {:induction false} DueGrows(current: Throttle, attempts: seq<Attempt>)
    requires forall a | a in attempts :: a.interval >= 0
    ensures After(current, attempts).nextDue >= current.nextDue
    ensures After(current, attempts).claim == current.claim
            || exists a :: a in attempts && After(current, attempts).claim == a.token
    decreases |attempts|
  {
    if attempts != [] {
      assert attempts[0] in attempts;
      DueGrows(Reserve(current, attempts[0]), attempts[1..]);
    }
  }

  lemma {:induction false} AfterSplit(current: Throttle, a: seq<Attempt>, b: seq<Attempt>)
    ensures After(current, a + b) == After(After(current, a), b)
    decreases |a|
  {
    if a == [] {
      assert a + b == b;
    } else {
      assert (a + b)[1..] == a[1..] + b;
      AfterSplit(Reserve(current, a[0]), a[1..], b);
    }
  }

  /** A fresh attempt is granted exactly when the previous interval is over. */
  lemma GrantedExactly(current: Throttle, a: Attempt)
    requires a.token != current.claim
    ensures Granted(current, a) <==> current.nextDue <= a.now
    ensures Granted(current, a) ==> Reserve(current, a).nextDue == a.now + a.interval
    ensures !Granted(current, a) ==> Reserve(current, a) == current
  {
  }

  /** Any two granted claims on a key are at least the first one's interval apart, even if the callers' clocks disagree
      about everything in between. */
  lemma ClaimsApart(start: Throttle, attempts: seq<Attempt>, i: nat, j: nat)
    requires i < j < |attempts| && Fresh(start, attempts)
    requires Granted(After(start, attempts[..i]), attempts[i]) && Granted(After(start, attempts[..j]), attempts[j])
    ensures attempts[j].now >= attempts[i].now + attempts[i].interval
  {
    var first, later := After(start, attempts[..i]), attempts[i + 1..j];
    NotClaimed(start, attempts, i);
    var held := Reserve(first, attempts[i]);
    assert held == Throttle(attempts[i].token, attempts[i].now + attempts[i].interval);
    assert attempts[..j] == attempts[..i] + ([attempts[i]] + later);
    AfterSplit(start, attempts[..i], [attempts[i]] + later);
    assert ([attempts[i]] + later)[1..] == later;
    assert After(first, [attempts[i]] + later) == After(held, later);
    forall a | a in later ensures a.interval >= 0 {
      var k :| 0 <= k < |later| && later[k] == a;
      assert attempts[i + 1 + k] == a;
    }
    DueGrows(held, later);
    NotClaimed(start, attempts, j);
  }

  /** Before an attempt nobody holds its token. */
  lemma NotClaimed(start: Throttle, attempts: seq<Attempt>, i: nat)
    requires i < |attempts| && Fresh(start, attempts)
    ensures After(start, attempts[..i]).claim != attempts[i].token
  {
    var before := attempts[..i];
    forall a | a in before ensures a.interval >= 0 && a.token != attempts[i].token {
      var k :| 0 <= k < |before| && before[k] == a;
      assert attempts[k] == a;
    }
    DueGrows(start, before);
  }

  // The store

  class Store {
    var builds: map<Key, Row>
    var throttles: map<Key, Throttle>
    ghost var tokens: set<nat>

    ghost predicate Valid()
      reads this
    {
      && (forall k | k in builds :: builds[k].key == k)
      && (forall k | k in throttles :: throttles[k].claim in tokens)
    }

    constructor ()
      ensures Valid() && builds == map[] && throttles == map[] && tokens == {}
    {
      builds, throttles, tokens := map[], map[], {};
    }

    function Build(key: Key): Option<Row>
      reads this
    {
      if key in builds then Some(builds[key]) else None
    }

    /** The transform of put_build, which may change the row it was given. */
    method Transform(current: Option<Row>, row: Row) returns (value: Row, changed: Row)
      ensures value == Merge(current, row) && changed == Changed(current, row)
    {
      changed := row;
      if current.Some? {
        var stored := current.value;
        if stored.complete && !row.complete { return stored, row; }
        if stored.observedAt > row.observedAt { return stored, row; }
        if stored.category != OTHER && stored.execution != "" && row.category == OTHER {
          changed := changed.(category := stored.category, execution := stored.execution);
        }
      }
      value := changed;
    }

    /** put_build, of which some attempts do not commit: the stored row is the merge of the row as these left it, and no
        other row changes. */
    method PutBuild(row: Row, seen: seq<Option<Row>>) returns (stored: Row)
      requires Valid()
      modifies this`builds
      ensures Valid()
      ensures stored == Merge(if row.key in old(builds) then Some(old(builds)[row.key]) else None, Carried(row, seen))
      ensures builds == old(builds)[row.key := stored]
    {
      var mine := row;
      for i := 0 to |seen|
        invariant mine == Carried(row, seen[..i]) && builds == old(builds)
      {
        assert seen[..i + 1][..i] == seen[..i];
        stored, mine := Transform(seen[i], mine);
      }
      assert seen[..|seen|] == seen;
      CarriedKeeps(row, seen);
      stored, mine := Transform(Build(row.key), mine);
      builds := builds[row.key := stored];
    }

    /** claim: granted exactly when the previous interval is over. A key without a throttle is due since the epoch. */
    method Claim(key: Key, now: int, interval: int, token: nat) returns (granted: bool)
      requires Valid() && token !in tokens
      modifies this`throttles, this`tokens
      ensures Valid() && tokens == old(tokens) + {token}
      ensures granted <==> (if key in old(throttles) then old(throttles)[key].nextDue else 0) <= now
      ensures throttles == if granted then old(throttles)[key := Throttle(token, now + interval)] else old(throttles)
    {
      tokens := tokens + {token};
      if !(key in throttles && throttles[key].nextDue > now) && !(key !in throttles && 0 > now) {
        throttles := throttles[key := Throttle(token, now + interval)];
      }
      granted := key in throttles && throttles[key].claim == token;
    }
  }

  // Whole runs

  datatype Call = Call(key: Key, now: int, interval: int)

  /** The interval of a granted call is not over yet. */
  ghost predicate Holds(c: Call, later: Call) { c.key == later.key && later.now < c.now + c.interval }

  /** Of two granted calls on a key, the later one comes at least the interval of the earlier one after it. */
  ghost predicate Apart(calls: seq<Call>, granted: seq<bool>)
    requires |granted| <= |calls|
  {
    forall i, j | 0 <= i < j < |granted| && granted[i] && granted[j] :: !Holds(calls[i], calls[j])
  }

  /** A call is refused only while the interval of an earlier one lasts, or before the epoch. */
  ghost predicate RefusedInTime(calls: seq<Call>, granted: seq<bool>)
    requires |granted| <= |calls|
  {
    forall j | 0 <= j < |granted| && !granted[j] && calls[j].now >= 0 ::
      exists i :: 0 <= i < j && granted[i] && Holds(calls[i], calls[j])
  }

  /** What the store remembers of the calls: for each key, until when it is taken. */
  ghost predicate Remembered(calls: seq<Call>, granted: seq<bool>, throttles: map<Key, Throttle>)
    requires |granted| <= |calls|
  {
    && (forall i | 0 <= i < |granted| && granted[i] ::
          calls[i].key in throttles && calls[i].now + calls[i].interval <= throttles[calls[i].key].nextDue)
    && (forall key | key in throttles ::
          exists i :: 0 <= i < |granted| && granted[i] && calls[i].key == key
                      && calls[i].now + calls[i].interval == throttles[key].nextDue)
  }

  ghost function DueAt(throttles: map<Key, Throttle>, key: Key): int {
    if key in throttles then throttles[key].nextDue else 0
  }

  lemma RememberedMore(calls: seq<Call>, granted: seq<bool>, throttles: map<Key, Throttle>, token: nat)
    requires |granted| < |calls| && Remembered(calls, granted, throttles) && calls[|granted|].interval >= 0
    requires DueAt(throttles, calls[|granted|].key) <= calls[|granted|].now
    ensures var c := calls[|granted|];
            Remembered(calls, granted + [true], throttles[c.key := Throttle(token, c.now + c.interval)])
  {
    var c, more := calls[|granted|], granted + [true];
    var next := throttles[c.key := Throttle(token, c.now + c.interval)];
    forall key | key in next
      ensures exists i :: 0 <= i < |more| && more[i] && calls[i].key == key
                          && calls[i].now + calls[i].interval == next[key].nextDue
    {
      if key == c.key {
        assert more[|granted|];
      } else {
        var i :| 0 <= i < |granted| && granted[i] && calls[i].key == key
                 && calls[i].now + calls[i].interval == throttles[key].nextDue;
        assert more[i];
      }
    }
  }

  lemma RememberedStill(calls: seq<Call>, granted: seq<bool>, throttles: map<Key, Throttle>)
    requires |granted| < |calls| && Remembered(calls, granted, throttles)
    ensures Remembered(calls, granted + [false], throttles)
  {
    var more := granted + [false];
    forall key | key in throttles
      ensures exists i :: 0 <= i < |more| && more[i] && calls[i].key == key
                          && calls[i].now + calls[i].interval == throttles[key].nextDue
    {
      var i :| 0 <= i < |granted| && granted[i] && calls[i].key == key
               && calls[i].now + calls[i].interval == throttles[key].nextDue;
      assert more[i];
    }
  }

  lemma ApartMore(calls: seq<Call>, granted: seq<bool>, throttles: map<Key, Throttle>, ok: bool)
    requires |granted| < |calls| && Remembered(calls, granted, throttles)
    requires Apart(calls, granted) && RefusedInTime(calls, granted)
    requires ok <==> DueAt(throttles, calls[|granted|].key) <= calls[|granted|].now
    ensures Apart(calls, granted + [ok]) && RefusedInTime(calls, granted + [ok])
  {
    var more, c := granted + [ok], calls[|granted|];
    forall j | 0 <= j < |more| && !more[j] && calls[j].now >= 0
      ensures exists i :: 0 <= i < j && more[i] && Holds(calls[i], calls[j])
    {
      if j < |granted| {
        assert !granted[j];
        var i :| 0 <= i < j && granted[i] && Holds(calls[i], calls[j]);
        assert more[i];
      } else {
        assert c.key in throttles;
        var i :| 0 <= i < |granted| && granted[i] && calls[i].key == c.key
                 && calls[i].now + calls[i].interval == throttles[c.key].nextDue;
        assert more[i];
      }
    }
  }

  /** Any calls of claim on one store. */
  method ClaimAll(calls: seq<Call>) returns (granted: seq<bool>)
    requires forall c | c in calls :: c.interval >= 0
    ensures |granted| == |calls| && Apart(calls, granted) && RefusedInTime(calls, granted)
  {
    hide Apart, RefusedInTime, Remembered;
    var store := new Store();
    granted := [];
    NothingRemembered(calls);
    for k := 0 to |calls|
      invariant fresh(store) && store.Valid() && |granted| == k && forall n | n in store.tokens :: n < k
      invariant Apart(calls, granted) && RefusedInTime(calls, granted) && Remembered(calls, granted, store.throttles)
    {
      var c := calls[k];
      assert c in calls;
      ghost var before := store.throttles;
      var ok := store.Claim(c.key, c.now, c.interval, k);
      ApartMore(calls, granted, before, ok);
      if ok { RememberedMore(calls, granted, before, k); } else { RememberedStill(calls, granted, before); }
      granted := granted + [ok];
    }
  }

  lemma NothingRemembered(calls: seq<Call>)
    ensures Apart(calls, []) && RefusedInTime(calls, []) && Remembered(calls, [], map[])
  {
  }

  /** Any calls of put_build for one key on one store leave the merge of their rows. */
  method PutAll(key: Key, puts: seq<Put>) returns (row: Option<Row>)
    requires forall p | p in puts :: p.row.key == key
    ensures row == MergeAll(None, puts)
  {
    var store := new Store();
    for k := 0 to |puts|
      invariant fresh(store) && store.Valid() && store.Build(key) == MergeAll(None, puts[..k])
    {
      assert puts[k] in puts && puts[..k + 1] == puts[..k] + [puts[k]];
      MergeSnoc(None, puts[..k], puts[k]);
      var stored := store.PutBuild(puts[k].row, puts[k].seen);
    }
    assert puts[..|puts|] == puts;
    row := store.Build(key);
  }

  lemma {:induction false} MergeSnoc(current: Option<Row>, puts: seq<Put>, p: Put)
    ensures MergeAll(current, puts + [p])
         == Some(Merge(MergeAll(current, puts), Carried(p.row, p.seen)))
    decreases |puts|
  {
    hide Merge, Carried;
    if puts == [] {
      assert [p][1..] == [] && puts + [p] == [p];
      assert MergeAll(current, [p]) == MergeAll(Some(Merge(current, Carried(p.row, p.seen))), []);
    } else {
      assert (puts + [p])[1..] == puts[1..] + [p];
      MergeSnoc(Some(Merge(current, Carried(puts[0].row, puts[0].seen))), puts[1..], p);
    }
  }
}
