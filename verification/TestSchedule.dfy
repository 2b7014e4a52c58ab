/** balanced_order of scripts/ops/cloud-build-fallback/pytest_schedule.py:28-53: longest tests first, each to the least
    loaded worker that still has room. Durations are exact reals. */
module TestSchedule {
  import opened Lexical

  type Test = string
  type Durations = map<Test, real>

  datatype Plan = Invalid | Planned(order: seq<Test>, totals: seq<real>)

  // The order of assignment

  /** The sort key (-duration, id). */
  predicate Before(a: Test, b: Test, durations: Durations)
    requires a in durations && b in durations
  {
    durations[a] > durations[b] || (durations[a] == durations[b] && AtMost(a, b))
  }

  ghost predicate Timed(tests: seq<Test>, durations: Durations) { forall t | t in tests :: t in durations }

  function Insert(x: Test, tests: seq<Test>, durations: Durations): (r: seq<Test>)
    requires x in durations && Timed(tests, durations)
    ensures multiset(r) == multiset(tests) + multiset{x} && |r| == |tests| + 1 && Timed(r, durations)
  {
    if tests == [] || Before(x, tests[0], durations) then
      assert multiset([x] + tests) == multiset(tests) + multiset{x};
      assert forall t | t in [x] + tests :: t in durations;
      [x] + tests
    else
      assert tests == [tests[0]] + tests[1..];
      var r := [tests[0]] + Insert(x, tests[1..], durations);
      assert forall t | t in r :: t in durations;
      r
  }

  function LongestFirst(tests: seq<Test>, durations: Durations): (r: seq<Test>)
    requires Timed(tests, durations)
    ensures multiset(r) == multiset(tests) && |r| == |tests| && Timed(r, durations)
  {
    if tests == [] then []
    else
      assert tests == [tests[0]] + tests[1..];
      Insert(tests[0], LongestFirst(tests[1..], durations), durations)
  }

  ghost predicate Falling(tests: seq<Test>, durations: Durations)
    requires Timed(tests, durations)
  {
    forall i, j | 0 <= i < j < |tests| :: durations[tests[i]] >= durations[tests[j]]
  }

  lemma {:induction false} InsertFalls(x: Test, tests: seq<Test>, durations: Durations)
    requires x in durations && Timed(tests, durations) && Falling(tests, durations)
    ensures Falling(Insert(x, tests, durations), durations)
  {
    if tests != [] && !Before(x, tests[0], durations) {
      InsertFalls(x, tests[1..], durations);
      var rest := Insert(x, tests[1..], durations);
      forall j | 0 <= j < |rest| ensures durations[tests[0]] >= durations[rest[j]] {
        assert rest[j] in multiset(rest);
        InsertedIs(x, tests[1..], rest, rest[j]);
      }
    }
  }

  lemma InsertedIs(x: Test, tests: seq<Test>, rest: seq<Test>, t: Test)
    requires multiset(rest) == multiset(tests) + multiset{x} && t in rest
    ensures t == x || t in tests
  {
    assert t in multiset(rest);
  }

  lemma {:induction false} LongestFirstFalls(tests: seq<Test>, durations: Durations)
    requires Timed(tests, durations)
    ensures Falling(LongestFirst(tests, durations), durations)
  {
    if tests != [] {
      LongestFirstFalls(tests[1..], durations);
      InsertFalls(tests[0], LongestFirst(tests[1..], durations), durations);
    }
  }

  // Capacities

  /** The room of one worker: the floor of the average, and one more for the last `tests % workers` workers. */
  ghost function Capacity(tests: nat, workers: nat, index: nat): nat
    requires index < workers
  {
    if index < workers - tests % workers then tests / workers else tests / workers + 1
  }

  ghost function SumOf(s: seq<nat>): nat { if s == [] then 0 else s[0] + SumOf(s[1..]) }

  lemma {:induction false} SumSnoc(s: seq<nat>, x: nat)
    ensures SumOf(s + [x]) == SumOf(s) + x
  {
    if s == [] {
      assert s + [x] == [x];
    } else {
      assert (s + [x])[1..] == s[1..] + [x];
      SumSnoc(s[1..], x);
    }
  }

  lemma Grows(a: nat, b: nat, d: nat)
    requires a <= b
    ensures a * d <= b * d
  {
  }

  lemma DivisionIs(n: nat, d: nat, q: nat)
    requires d > 0 && q * d <= n < (q + 1) * d
    ensures n / d == q
  {
    var p := n / d;
    assert p * d <= n < (p + 1) * d;
    if p < q { Grows(p + 1, q, d); }
    if q < p { Grows(q + 1, p, d); }
  }

  /** What is still to be handed out to the workers from `index` on. */
  ghost predicate Due(tests: nat, workers: nat, index: nat, remaining: nat)
    requires index <= workers && workers > 0
  {
    var q, r, left := tests / workers, tests % workers, workers - index;
    remaining == if left >= r then q * left + r else (q + 1) * left
  }

  lemma Times(q: nat, left: nat)
    requires left > 0
    ensures (q + 1) * left == q * left + left && q * left == q * (left - 1) + q
  {
  }

  lemma ShareStep(q: nat, r: nat, left: nat, remaining: nat)
    requires left > 0 && remaining == if left >= r then q * left + r else (q + 1) * left
    ensures remaining / left == (if r < left then q else q + 1) <= remaining
    ensures remaining - remaining / left == if left - 1 >= r then q * (left - 1) + r else (q + 1) * (left - 1)
  {
    Times(q, left);
    Times(q + 1, left);
    if r < left {
      DivisionIs(remaining, left, q);
      Grows(1, left, q);
    } else {
      DivisionIs(remaining, left, q + 1);
      Grows(1, left, q + 1);
    }
  }

  lemma DueStep(tests: nat, workers: nat, index: nat, remaining: nat)
    requires index < workers && Due(tests, workers, index, remaining)
    ensures remaining / (workers - index) == Capacity(tests, workers, index) <= remaining
    ensures Due(tests, workers, index + 1, remaining - Capacity(tests, workers, index))
  {
    var q, r, left := tests / workers, tests % workers, workers - index;
    assert index < workers - r <==> r < left;
    assert workers - (index + 1) == left - 1;
    ShareStep(q, r, left, remaining);
    hide *;
  }

  /** The loop that hands out the capacities. */
  method Capacities(tests: nat, workers: nat) returns (capacities: seq<nat>)
    requires workers > 0
    ensures |capacities| == workers && SumOf(capacities) == tests
    ensures forall i | 0 <= i < workers :: capacities[i] == Capacity(tests, workers, i)
  {
    hide Due, Capacity, SumOf;
    capacities := [];
    var remaining: nat := tests;
    DueAtStart(tests, workers);
    for index := 0 to workers
      invariant |capacities| == index && SumOf(capacities) + remaining == tests && Due(tests, workers, index, remaining)
      invariant forall i | 0 <= i < index :: capacities[i] == Capacity(tests, workers, i)
    {
      DueStep(tests, workers, index, remaining);
      var capacity := remaining / (workers - index);
      SumSnoc(capacities, capacity);
      capacities := capacities + [capacity];
      remaining := remaining - capacity;
    }
    DueAtEnd(tests, workers, remaining);
  }

  lemma DueAtStart(tests: nat, workers: nat)
    requires workers > 0
    ensures Due(tests, workers, 0, tests) && SumOf([]) == 0
  {
  }

  lemma DueAtEnd(tests: nat, workers: nat, remaining: nat)
    requires workers > 0 && Due(tests, workers, workers, remaining)
    ensures remaining == 0
  {
    assert (tests / workers) * 0 == 0 && (tests / workers + 1) * 0 == 0;
  }

  // Queues and totals

  ghost function Flat(queues: seq<seq<Test>>): seq<Test> { if queues == [] then [] else queues[0] + Flat(queues[1..]) }

  ghost function Total(queue: seq<Test>, durations: Durations): real
    requires Timed(queue, durations)
  {
    if queue == [] then 0.0 else durations[queue[|queue| - 1]] + Total(queue[..|queue| - 1], durations)
  }

  ghost function SumReals(s: seq<real>): real { if s == [] then 0.0 else s[0] + SumReals(s[1..]) }

  lemma {:induction false} FlatAppend(queues: seq<seq<Test>>, w: nat, x: Test)
    requires w < |queues|
    ensures multiset(Flat(queues[w := queues[w] + [x]])) == multiset(Flat(queues)) + multiset{x}
    ensures |Flat(queues[w := queues[w] + [x]])| == |Flat(queues)| + 1
  {
    var next := queues[w := queues[w] + [x]];
    if w == 0 {
      assert next[1..] == queues[1..];
    } else {
      assert next[1..] == queues[1..][w - 1 := queues[1..][w - 1] + [x]];
      FlatAppend(queues[1..], w - 1, x);
    }
  }

  /** No queue is over its capacity; together they hold as many tests as the capacities allow exactly when all are
      full. */
  lemma {:induction false} AllFull(queues: seq<seq<Test>>, capacities: seq<nat>)
    requires |queues| == |capacities| && forall i | 0 <= i < |queues| :: |queues[i]| <= capacities[i]
    ensures |Flat(queues)| <= SumOf(capacities)
    ensures |Flat(queues)| == SumOf(capacities) <==> forall i | 0 <= i < |queues| :: |queues[i]| == capacities[i]
  {
    if queues != [] {
      AllFull(queues[1..], capacities[1..]);
      assert (forall i | 0 <= i < |queues| :: |queues[i]| == capacities[i])
         <==> |queues[0]| == capacities[0]
              && forall i | 0 <= i < |queues| - 1 :: |queues[1..][i]| == capacities[1..][i];
    }
  }

  lemma {:induction false} SumUpdate(s: seq<real>, w: nat, d: real)
    requires w < |s|
    ensures SumReals(s[w := s[w] + d]) == SumReals(s) + d
  {
    var t := s[w := s[w] + d];
    if w == 0 {
      assert t[1..] == s[1..];
    } else {
      assert t[1..] == s[1..][w - 1 := s[1..][w - 1] + d];
      SumUpdate(s[1..], w - 1, d);
    }
  }

  // Balance

  /** How far apart two workers may be after `d` was the last duration handed out, the largest being `most`. */
  ghost predicate Level(queues: seq<seq<Test>>, capacities: seq<nat>, totals: seq<real>, most: real, d: real)
    requires |queues| == |capacities| == |totals|
  {
    && (forall i, j | 0 <= i < |queues| && 0 <= j < |queues| && |queues[j]| < capacities[j] ::
          totals[i] - totals[j] <= most)
    && (forall i, j | 0 <= i < |queues| && 0 <= j < |queues| && |queues[i]| <= |queues[j]| + 1 ::
          totals[i] - totals[j] <= most - Slack(|queues[i]|, |queues[j]|, d))
  }

  ghost function Slack(a: nat, b: nat, d: real): real
    requires a <= b + 1
  {
    (b + 1 - a) as real * d
  }

  lemma Scaled(n: nat, d: real, d': real)
    requires d' <= d
    ensures n as real * d' <= n as real * d
    ensures (n + 1) as real * d == n as real * d + d
  {
  }

  /** A shorter duration loosens the bound. */
  lemma LevelLoosens(queues: seq<seq<Test>>, capacities: seq<nat>, totals: seq<real>, most: real, d: real, d': real)
    requires |queues| == |capacities| == |totals| && Level(queues, capacities, totals, most, d) && d' <= d
    ensures Level(queues, capacities, totals, most, d')
  {
    forall i, j | 0 <= i < |queues| && 0 <= j < |queues| && |queues[i]| <= |queues[j]| + 1
      ensures totals[i] - totals[j] <= most - Slack(|queues[i]|, |queues[j]|, d')
    {
      Scaled(|queues[j]| + 1 - |queues[i]|, d, d');
    }
  }

  ghost predicate Least(queues: seq<seq<Test>>, capacities: seq<nat>, totals: seq<real>, w: nat)
    requires |queues| == |capacities| == |totals|
  {
    && w < |queues| && |queues[w]| < capacities[w]
    && forall j | 0 <= j < |queues| && |queues[j]| < capacities[j] :: totals[w] <= totals[j]
  }

  /** Giving the next test to the least loaded worker with room keeps the workers level. */
  lemma LevelStep(queues: seq<seq<Test>>, capacities: seq<nat>, totals: seq<real>, most: real, d: real, w: nat, x: Test)
    requires |queues| == |capacities| == |totals| && Level(queues, capacities, totals, most, d) && 0.0 <= d <= most
    requires Least(queues, capacities, totals, w)
    ensures Level(queues[w := queues[w] + [x]], capacities, totals[w := totals[w] + d], most, d)
  {
    hide Slack;
    var q, t := queues[w := queues[w] + [x]], totals[w := totals[w] + d];
    forall i, j | 0 <= i < |q| && 0 <= j < |q| && |q[i]| <= |q[j]| + 1
      ensures t[i] - t[j] <= most - Slack(|q[i]|, |q[j]|, d)
    {
      PairStep(|queues[i]|, |queues[j]|, totals[i], totals[j], most, d, i == w, j == w);
    }
  }

  /** One pair of workers, of which either may be the one that gets the test. */
  lemma PairStep(a: nat, b: nat, s: real, t: real, most: real, d: real, first: bool, second: bool)
    requires 0.0 <= d <= most && (first && second ==> a == b && s == t)
    requires a <= b + 1 ==> s - t <= most - Slack(a, b, d)
    requires second ==> s - t <= most
    requires (if first then a + 1 else a) <= (if second then b + 1 else b) + 1
    ensures (if first then s + d else s) - (if second then t + d else t)
         <= most - Slack(if first then a + 1 else a, if second then b + 1 else b, d)
  {
    if first && !second {
      Scaled(b - a, d, d);
    } else if second && !first && a <= b + 1 {
      Scaled(b + 1 - a, d, d);
    }
  }

  // The loop

  ghost predicate Distinct(tests: seq<Test>) { forall i, j | 0 <= i < j < |tests| :: tests[i] != tests[j] }

  ghost function AsSet(tests: seq<Test>): set<Test> { set t | t in tests }

  /** A list has as many different members as members exactly when none is repeated. */
  lemma {:induction false} DistinctCount(tests: seq<Test>)
    ensures |AsSet(tests)| <= |tests| && (|AsSet(tests)| == |tests| <==> Distinct(tests))
  {
    if tests != [] {
      var last, rest := tests[|tests| - 1], tests[..|tests| - 1];
      DistinctCount(rest);
      assert tests == rest + [last];
      assert AsSet(tests) == AsSet(rest) + {last};
      if last in rest {
        assert AsSet(tests) == AsSet(rest);
        var k :| 0 <= k < |rest| && rest[k] == last;
        assert tests[k] == tests[|tests| - 1];
      } else {
        assert forall i | 0 <= i < |rest| :: rest[i] == tests[i] && rest[i] in rest;
      }
    }
  }

  /** A queue in which longer tests come first, and of equally long ones the smaller name. */
  ghost predicate InTurn(queue: seq<Test>, durations: Durations)
    requires Timed(queue, durations)
  {
    forall i, j | 0 <= i < j < |queue| ::
      durations[queue[i]] > durations[queue[j]]
      || (durations[queue[i]] == durations[queue[j]] && AtMost(queue[i], queue[j]))
  }

  /** Every queue is in turn, and holds only what was handed out. */
  ghost predicate Turns(queues: seq<seq<Test>>, done: seq<Test>, durations: Durations) {
    forall q | q in queues :: Timed(q, durations) && InTurn(q, durations) && forall t | t in q :: t in done
  }

  lemma InTurnMore(queue: seq<Test>, x: Test, durations: Durations)
    requires Timed(queue, durations) && InTurn(queue, durations) && x in durations
    requires forall t | t in queue :: Earlier(t, x, durations)
    ensures Timed(queue + [x], durations) && InTurn(queue + [x], durations)
  {
    assert forall i | 0 <= i < |queue| :: queue[i] in queue;
  }

  lemma TurnsMore(queues: seq<seq<Test>>, done: seq<Test>, x: Test, durations: Durations, w: nat)
    requires Turns(queues, done, durations) && w < |queues|
    requires x in durations && forall t | t in done :: Earlier(t, x, durations)
    ensures Turns(queues[w := queues[w] + [x]], done + [x], durations)
  {
    hide InTurn, Earlier;
    var more := queues[w := queues[w] + [x]];
    assert queues[w] in queues;
    InTurnMore(queues[w], x, durations);
    forall q | q in more ensures q in queues || q == queues[w] + [x] {
      var k :| 0 <= k < |more| && more[k] == q;
      if k != w { assert queues[k] == q; }
    }
  }

  /** Every total is the time of its queue. */
  ghost predicate Summed(queues: seq<seq<Test>>, totals: seq<real>, durations: Durations) {
    && |queues| == |totals|
    && forall i | 0 <= i < |queues| :: Timed(queues[i], durations) && totals[i] == Total(queues[i], durations)
  }

  /** The longest duration of a list. */
  ghost function Longest(tests: seq<Test>, durations: Durations): real
    requires Timed(tests, durations)
  {
    if tests == [] then 0.0
    else
      var m := Longest(tests[1..], durations);
      if durations[tests[0]] > m then durations[tests[0]] else m
  }

  lemma {:induction false} LongestIs(tests: seq<Test>, durations: Durations)
    requires Timed(tests, durations)
    ensures forall t | t in tests :: durations[t] <= Longest(tests, durations)
    ensures Longest(tests, durations) >= 0.0
    ensures Longest(tests, durations) == 0.0 || exists t :: t in tests && durations[t] == Longest(tests, durations)
  {
    if tests != [] {
      LongestIs(tests[1..], durations);
      assert tests == [tests[0]] + tests[1..];
      if Longest(tests, durations) == durations[tests[0]] { assert tests[0] in tests; }
    }
  }

  /** min over the workers with room, by total and then index. */
  method PickWorker(queues: seq<seq<Test>>, capacities: seq<nat>, totals: seq<real>) returns (w: nat)
    requires |queues| == |capacities| == |totals|
    requires exists i :: 0 <= i < |queues| && |queues[i]| < capacities[i]
    ensures Least(queues, capacities, totals, w)
    ensures forall j | 0 <= j < w && |queues[j]| < capacities[j] :: totals[w] < totals[j]
  {
    w := |queues|;
    for index := 0 to |queues|
      invariant w == |queues| ==> forall j | 0 <= j < index :: |queues[j]| >= capacities[j]
      invariant w == |queues| || w < index
      invariant w < |queues| ==> |queues[w]| < capacities[w]
      invariant w < |queues| ==> forall j | 0 <= j < index && |queues[j]| < capacities[j] :: totals[w] <= totals[j]
      invariant w < |queues| ==> forall j | 0 <= j < w && |queues[j]| < capacities[j] :: totals[w] < totals[j]
    {
      if |queues[index]| < capacities[index] && (w == |queues| || totals[index] < totals[w]) { w := index; }
    }
  }

  lemma TotalSnoc(queue: seq<Test>, x: Test, durations: Durations)
    requires Timed(queue, durations) && x in durations
    ensures Timed(queue + [x], durations) && Total(queue + [x], durations) == Total(queue, durations) + durations[x]
  {
    assert (queue + [x])[..|queue|] == queue;
  }

  lemma EmptyQueues(queues: seq<seq<Test>>)
    requires forall i | 0 <= i < |queues| :: queues[i] == []
    ensures Flat(queues) == []
  {
    if queues != [] { EmptyQueues(queues[1..]); }
  }

  lemma ZeroTotals(totals: seq<real>)
    requires forall i | 0 <= i < |totals| :: totals[i] == 0.0
    ensures SumReals(totals) == 0.0
  {
    if totals != [] { ZeroTotals(totals[1..]); }
  }

  ghost predicate Within(queues: seq<seq<Test>>, capacities: seq<nat>) {
    |queues| == |capacities| && forall i | 0 <= i < |queues| :: |queues[i]| <= capacities[i]
  }

  /** What holds once `done` is handed out. */
  ghost predicate Assigned(done: seq<Test>, queues: seq<seq<Test>>, capacities: seq<nat>, totals: seq<real>,
                     durations: Durations)
  {
    && Within(queues, capacities) && Summed(queues, totals, durations)
    && multiset(Flat(queues)) == multiset(done) && |Flat(queues)| == |done|
    && Timed(done, durations) && SumReals(totals) == Total(done, durations)
  }

  lemma AssignOne(done: seq<Test>, queues: seq<seq<Test>>, capacities: seq<nat>, totals: seq<real>,
                  durations: Durations, w: nat, x: Test)
    requires Assigned(done, queues, capacities, totals, durations) && Least(queues, capacities, totals, w)
             && x in durations
    ensures Assigned(done + [x], queues[w := queues[w] + [x]], capacities, totals[w := totals[w] + durations[x]],
                     durations)
  {
    hide Flat, Total, SumReals;
    FlatAppend(queues, w, x);
    TotalSnoc(queues[w], x, durations);
    TotalSnoc(done, x, durations);
    SumUpdate(totals, w, durations[x]);
  }

  lemma RoomLeft(done: seq<Test>, queues: seq<seq<Test>>, capacities: seq<nat>, totals: seq<real>, durations: Durations)
    requires Assigned(done, queues, capacities, totals, durations) && |done| < SumOf(capacities)
    ensures exists i :: 0 <= i < |queues| && |queues[i]| < capacities[i]
  {
    AllFull(queues, capacities);
  }

  /** What the caller gets: the blocks of the workers, one after the other. */
  ghost predicate Blocks(queues: seq<seq<Test>>, tests: seq<Test>, durations: Durations, plan: Plan) {
    && plan.Planned? && plan.order == Flat(queues) && Summed(queues, plan.totals, durations)
    && multiset(plan.order) == multiset(tests)
    && forall i | 0 <= i < |queues| :: |queues[i]| == Capacity(|tests|, |queues|, i) && InTurn(queues[i], durations)
  }

  ghost predicate NonNegative(tests: seq<Test>, durations: Durations)
    requires Timed(tests, durations)
  {
    forall t | t in tests :: durations[t] >= 0.0
  }

  /** The assignment loop over the sorted tests. */
  method AssignAll(order: seq<Test>, capacities: seq<nat>, durations: Durations, ghost most: real)
    returns (blocks: seq<seq<Test>>, totals: seq<real>, ghost last: real)
    requires Timed(order, durations) && Falling(order, durations) && |order| == SumOf(capacities)
    requires most >= 0.0 && forall t | t in order :: durations[t] <= most
    requires Ranked(order, (a, b) => Earlier(a, b, durations))
    ensures Assigned(order, blocks, capacities, totals, durations) && Turns(blocks, order, durations)
    ensures NonNegative(order, durations) ==> Level(blocks, capacities, totals, most, last) && last >= 0.0
  {
    hide Flat, Total, Level, SumReals, Falling, SumOf, Assigned, Turns, Before;
    blocks := seq(|capacities|, _ => []);
    totals := seq(|capacities|, _ => 0.0);
    EmptyQueues(blocks);
    ZeroTotals(totals);
    last := most;
    ghost var sound := NonNegative(order, durations);
    StartLevel(blocks, capacities, totals, most);
    NothingAssigned(blocks, capacities, totals, durations);
    NothingTurned(blocks, durations);
    AssignedSizes([], blocks, capacities, totals, durations);
    assert order[..0] == [];
    for k := 0 to |order|
      invariant Assigned(order[..k], blocks, capacities, totals, durations) && |blocks| == |capacities| == |totals|
      invariant Turns(blocks, order[..k], durations)
      invariant last <= most && last == if k == 0 then most else durations[order[k - 1]]
      invariant sound ==> Level(blocks, capacities, totals, most, last) && last >= 0.0
    {
      assert order[k] in order && order[..k] + [order[k]] == order[..k + 1];
      FallsTo(order, durations, k);
      AllEarlier(order, durations, k);
      ghost var before := blocks;
      blocks, totals := AssignNext(order[..k], order[k], blocks, capacities, totals, durations, most, last, sound);
      AssignedSizes(order[..k + 1], blocks, capacities, totals, durations);
      ghost var w: nat :| w < |before| && blocks == before[w := before[w] + [order[k]]];
      TurnsMore(before, order[..k], order[k], durations, w);
      last := durations[order[k]];
    }
    assert order[..|order|] == order;
  }

  lemma NothingTurned(queues: seq<seq<Test>>, durations: Durations)
    requires forall i | 0 <= i < |queues| :: queues[i] == []
    ensures Turns(queues, [], durations)
  {
  }

  lemma AllEarlier(order: seq<Test>, durations: Durations, k: nat)
    requires Ranked(order, (a, b) => Earlier(a, b, durations)) && k < |order|
    ensures forall t | t in order[..k] :: Earlier(t, order[k], durations)
  {
    forall t | t in order[..k] ensures Earlier(t, order[k], durations) {
      var i :| 0 <= i < k && order[i] == t;
    }
  }

  lemma AssignedSizes(done: seq<Test>, queues: seq<seq<Test>>, capacities: seq<nat>, totals: seq<real>,
                      durations: Durations)
    requires Assigned(done, queues, capacities, totals, durations)
    ensures |queues| == |capacities| == |totals| && Within(queues, capacities) && Summed(queues, totals, durations)
    ensures multiset(Flat(queues)) == multiset(done) && |Flat(queues)| == |done|
  {
    hide Flat, Total, SumReals;
  }

  /** balanced_order: a permutation of the tests in one block for each worker, of exactly the capacities xdist uses,
      whose times differ by at most the longest test. */
  method BalancedOrder(tests: seq<Test>, durations: Durations, workers: int)
    returns (plan: Plan, ghost queues: seq<seq<Test>>)
    ensures plan.Invalid? <==> workers < 1 || !Distinct(tests) || !Timed(tests, durations)
    ensures plan.Planned? ==> |queues| == workers && Blocks(queues, tests, durations, plan)
    ensures plan.Planned? && NonNegative(tests, durations) ==> Balanced(queues, tests, durations, plan.totals)
  {
    hide Flat, Total, Capacity, Level, LongestFirst, Longest, SumReals, Falling, SumOf, Assigned, Balanced, Turns,
         Distinct;
    queues := [];
    var names := set t | t in tests;
    assert names == AsSet(tests);
    DistinctCount(tests);
    if workers < 1 || |names| != |tests| || !(names <= durations.Keys) { return Invalid, queues; }
    var capacities := Capacities(|tests|, workers);
    var order := LongestFirst(tests, durations);
    LongestFirstFalls(tests, durations);
    LongestFirstRanks(tests, durations);
    LongestIs(tests, durations);
    SameTests(order, tests);
    var blocks, totals;
    ghost var last;
    blocks, totals, last := AssignAll(order, capacities, durations, Longest(tests, durations));
    AssignedSizes(order, blocks, capacities, totals, durations);
    AllFull(blocks, capacities);
    queues := blocks;
    var flat := Flatten(blocks);
    plan := Planned(flat, totals);
    AllInTurn(blocks, order, durations);
    if NonNegative(tests, durations) { LevelBalanced(blocks, capacities, totals, tests, durations, last); }
  }

  lemma AllInTurn(queues: seq<seq<Test>>, done: seq<Test>, durations: Durations)
    requires Turns(queues, done, durations)
    ensures forall i | 0 <= i < |queues| :: Timed(queues[i], durations) && InTurn(queues[i], durations)
  {
  }

  /** [item for queue in queues for item in queue]. */
  method Flatten(queues: seq<seq<Test>>) returns (flat: seq<Test>)
    ensures flat == Flat(queues)
  {
    flat := [];
    for i := 0 to |queues|
      invariant flat == Flat(queues[..i])
    {
      assert queues[..i + 1] == queues[..i] + [queues[i]];
      FlatSnoc(queues[..i], queues[i]);
      flat := flat + queues[i];
    }
    assert queues[..|queues|] == queues;
  }

  lemma {:induction false} FlatSnoc(queues: seq<seq<Test>>, queue: seq<Test>)
    ensures Flat(queues + [queue]) == Flat(queues) + queue
  {
    if queues == [] {
      assert queues + [queue] == [queue];
    } else {
      assert (queues + [queue])[1..] == queues[1..] + [queue];
      FlatSnoc(queues[1..], queue);
    }
  }

  lemma SameTests(order: seq<Test>, tests: seq<Test>)
    requires multiset(order) == multiset(tests)
    ensures forall t :: t in order <==> t in tests
  {
    forall t ensures t in order <==> t in tests { assert t in multiset(order) <==> t in multiset(tests); }
  }

  /** One pass of the loop. */
  method AssignNext(ghost done: seq<Test>, x: Test, blocks: seq<seq<Test>>, capacities: seq<nat>, totals: seq<real>,
                    durations: Durations, ghost most: real, ghost last: real, ghost sound: bool)
    returns (blocks': seq<seq<Test>>, totals': seq<real>)
    requires Assigned(done, blocks, capacities, totals, durations) && |done| < SumOf(capacities) && x in durations
    requires sound ==> Level(blocks, capacities, totals, most, last) && 0.0 <= durations[x] <= last <= most
    ensures Assigned(done + [x], blocks', capacities, totals', durations) && |blocks'| == |blocks|
    ensures exists w: nat :: w < |blocks| && blocks' == blocks[w := blocks[w] + [x]]
    ensures sound ==> Level(blocks', capacities, totals', most, durations[x])
  {
    hide Flat, Total, Level, SumReals, SumOf;
    RoomLeft(done, blocks, capacities, totals, durations);
    var w := PickWorker(blocks, capacities, totals);
    AssignOne(done, blocks, capacities, totals, durations, w, x);
    if sound {
      LevelLoosens(blocks, capacities, totals, most, last, durations[x]);
      LevelStep(blocks, capacities, totals, most, durations[x], w, x);
    }
    blocks' := blocks[w := blocks[w] + [x]];
    totals' := totals[w := totals[w] + durations[x]];
  }

  lemma StartLevel(blocks: seq<seq<Test>>, capacities: seq<nat>, totals: seq<real>, most: real)
    requires |blocks| == |capacities| == |totals| && most >= 0.0
    requires forall i | 0 <= i < |blocks| :: blocks[i] == [] && totals[i] == 0.0
    ensures Level(blocks, capacities, totals, most, most)
  {
  }

  lemma NothingAssigned(blocks: seq<seq<Test>>, capacities: seq<nat>, totals: seq<real>, durations: Durations)
    requires |blocks| == |capacities| == |totals| && Flat(blocks) == [] && SumReals(totals) == 0.0
    requires forall i | 0 <= i < |blocks| :: blocks[i] == [] && totals[i] == 0.0
    ensures Assigned([], blocks, capacities, totals, durations)
  {
    hide Flat, SumReals;
  }

  lemma FallsTo(order: seq<Test>, durations: Durations, k: nat)
    requires Timed(order, durations) && Falling(order, durations) && k < |order|
    ensures k > 0 ==> durations[order[k]] <= durations[order[k - 1]]
  {
  }

  /** No two workers differ by more than the longest test, and none is over the average by more than that. */
  ghost predicate Balanced(queues: seq<seq<Test>>, tests: seq<Test>, durations: Durations, totals: seq<real>)
    requires Timed(tests, durations)
  {
    && |queues| == |totals|
    && (forall i, j | 0 <= i < |totals| && 0 <= j < |totals| :: totals[i] - totals[j] <= Longest(tests, durations))
    && (forall i | 0 <= i < |totals| ::
          totals[i] * |totals| as real <= SumReals(totals) + Longest(tests, durations) * (|totals| - 1) as real)
  }

  lemma {:induction false} AverageBound(totals: seq<real>, top: real, most: real)
    requires forall j | 0 <= j < |totals| :: top - totals[j] <= most
    ensures top * |totals| as real <= SumReals(totals) + most * |totals| as real
  {
    if totals != [] {
      AverageBound(totals[1..], top, most);
      var n := |totals| - 1;
      assert top * (n + 1) as real == top * n as real + top;
      assert most * (n + 1) as real == most * n as real + most;
    }
  }

  /** The worker itself needs no allowance. */
  lemma {:induction false} AverageBoundAt(totals: seq<real>, i: nat, most: real)
    requires i < |totals| && forall j | 0 <= j < |totals| :: totals[i] - totals[j] <= most
    ensures totals[i] * |totals| as real <= SumReals(totals) + most * (|totals| - 1) as real
  {
    var top, n := totals[i], |totals| - 1;
    assert top * (n + 1) as real == top * n as real + top;
    if i == 0 {
      AverageBound(totals[1..], top, most);
    } else {
      AverageBoundAt(totals[1..], i - 1, most);
      assert most * n as real == most * (n - 1) as real + most;
    }
  }

  lemma LevelBalanced(queues: seq<seq<Test>>, capacities: seq<nat>, totals: seq<real>, tests: seq<Test>,
                      durations: Durations, last: real)
    requires Timed(tests, durations) && |queues| == |capacities| == |totals| > 0
    requires Level(queues, capacities, totals, Longest(tests, durations), last)
    requires forall i | 0 <= i < |queues| :: |queues[i]| == capacities[i] == Capacity(|tests|, |queues|, i)
    requires last >= 0.0
    ensures Balanced(queues, tests, durations, totals)
  {
    hide SumReals, Longest;
    var most := Longest(tests, durations);
    forall i, j | 0 <= i < |totals| && 0 <= j < |totals| ensures totals[i] - totals[j] <= most {
      SlackIsPositive(|queues[i]|, |queues[j]|, last);
    }
    forall i | 0 <= i < |totals|
      ensures totals[i] * |totals| as real <= SumReals(totals) + most * (|totals| - 1) as real
    {
      AverageBoundAt(totals, i, most);
    }
  }

  lemma SlackIsPositive(a: nat, b: nat, d: real)
    requires d >= 0.0 && a <= b + 1
    ensures Slack(a, b, d) >= 0.0
  {
    Scaled(b + 1 - a, d, 0.0);
  }

  // The schedule does not depend on the order of collection

  /** The sort key as a relation on any two tests. */
  ghost predicate Earlier(a: Test, b: Test, durations: Durations) {
    a in durations && b in durations && Before(a, b, durations)
  }

  lemma {:induction false} InsertRanks(x: Test, tests: seq<Test>, durations: Durations)
    requires x in durations && Timed(tests, durations) && Ranked(tests, (a, b) => Earlier(a, b, durations))
    ensures Ranked(Insert(x, tests, durations), (a, b) => Earlier(a, b, durations))
  {
    hide Before;
    if tests == [] {
    } else if Before(x, tests[0], durations) {
      forall y | y in tests ensures Earlier(x, y, durations) {
        var k :| 0 <= k < |tests| && tests[k] == y;
        if k > 0 { KeyTransitive(x, tests[0], y, durations); }
      }
      RankedCons(x, tests, (a, b) => Earlier(a, b, durations));
    } else {
      var rest := Insert(x, tests[1..], durations);
      InsertRanks(x, tests[1..], durations);
      KeyTotal(x, tests[0], durations);
      forall y | y in rest ensures Earlier(tests[0], y, durations) {
        assert y in multiset(rest);
        if y != x { var k :| 0 <= k < |tests| - 1 && tests[1..][k] == y; assert y == tests[k + 1]; }
      }
      RankedCons(tests[0], rest, (a, b) => Earlier(a, b, durations));
    }
  }

  lemma KeyTotal(a: Test, b: Test, durations: Durations)
    requires a in durations && b in durations
    ensures Earlier(a, b, durations) || Earlier(b, a, durations)
  {
    AtMostTotal(a, b);
  }

  lemma KeyTransitive(a: Test, b: Test, c: Test, durations: Durations)
    requires Earlier(a, b, durations) && Earlier(b, c, durations)
    ensures Earlier(a, c, durations)
  {
    if durations[a] == durations[b] == durations[c] { AtMostTransitive(a, b, c); }
  }

  lemma {:induction false} LongestFirstRanks(tests: seq<Test>, durations: Durations)
    requires Timed(tests, durations)
    ensures Ranked(LongestFirst(tests, durations), (a, b) => Earlier(a, b, durations))
  {
    if tests != [] {
      LongestFirstRanks(tests[1..], durations);
      InsertRanks(tests[0], LongestFirst(tests[1..], durations), durations);
    }
  }

  /** The tests are handed out in the same order however they were collected, so every worker computes the same
      schedule. */
  lemma SameOrder(tests: seq<Test>, others: seq<Test>, durations: Durations)
    requires Timed(tests, durations) && multiset(tests) == multiset(others)
    ensures Timed(others, durations) && LongestFirst(tests, durations) == LongestFirst(others, durations)
  {
    hide LongestFirst;
    SameTests(tests, others);
    LongestFirstRanks(tests, durations);
    LongestFirstRanks(others, durations);
    forall x, y | Earlier(x, y, durations) && Earlier(y, x, durations) ensures x == y { AtMostTotal(x, y); }
    OneRanking(LongestFirst(tests, durations), LongestFirst(others, durations), (a, b) => Earlier(a, b, durations));
  }
}
