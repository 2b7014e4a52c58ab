/** The monthly totals: aggregate of src/eng_platform_api/services/cloud_build_usage.py:189-233, with exact amounts and
    without the final rounding. */
module BuildUsage {
  import opened BuildMonths

  datatype Category = Deployment | ReleaseQuality | Other

  /** A ledger row as aggregate reads it: minutes per month, and the price of a minute when it is known. */
  datatype Usage = Usage(category: Category, complete: bool, violation: bool, minutes: map<Month, real>,
                         rate: Option<real>)

  datatype Totals = Totals(minutes: map<Category, real>, costs: map<Category, real>, builds: nat, pending: nat,
                           violations: nat, unpriced: nat)

  const CATEGORIES: set<Category> := {Deployment, ReleaseQuality, Other}

  ghost predicate InMonth(row: Usage, month: Month) { month in row.minutes }

  ghost predicate Counted(row: Usage, month: Month) { InMonth(row, month) && row.complete }

  // What the totals mean: sums over the rows that count

  ghost function Minutes(row: Usage, month: Month, category: Category): real {
    if Counted(row, month) && row.category == category then row.minutes[month] else 0.0
  }

  function Price(minutes: real, rate: real): real { minutes * rate }

  ghost function Cost(row: Usage, month: Month, category: Category): real {
    if Counted(row, month) && row.category == category && row.rate.Some?
    then Price(row.minutes[month], row.rate.value)
    else 0.0
  }

  ghost function SumMinutes(rows: seq<Usage>, month: Month, category: Category): real {
    if rows == [] then 0.0
    else SumMinutes(rows[..|rows| - 1], month, category) + Minutes(rows[|rows| - 1], month, category)
  }

  ghost function SumCosts(rows: seq<Usage>, month: Month, category: Category): real {
    if rows == [] then 0.0 else SumCosts(rows[..|rows| - 1], month, category) + Cost(rows[|rows| - 1], month, category)
  }

  /** All the minutes of the month, whatever their category. */
  ghost function ProjectMinutes(rows: seq<Usage>, month: Month): real {
    if rows == [] then 0.0
    else
      var row := rows[|rows| - 1];
      ProjectMinutes(rows[..|rows| - 1], month) + if Counted(row, month) then row.minutes[month] else 0.0
  }

  /** What the counters count. */
  datatype Counter = Builds | Pending | Violations | Unpriced

  ghost predicate Qualifies(row: Usage, month: Month, counter: Counter) {
    InMonth(row, month)
    && match counter
       case Builds => true
       case Pending => !row.complete
       case Violations => row.violation
       case Unpriced => row.complete && row.rate.None?
  }

  ghost function CountOf(rows: seq<Usage>, month: Month, counter: Counter): nat {
    if rows == [] then 0
    else CountOf(rows[..|rows| - 1], month, counter) + if Qualifies(rows[|rows| - 1], month, counter) then 1 else 0
  }

  ghost predicate TotalsOf(rows: seq<Usage>, month: Month, t: Totals) {
    && t.minutes.Keys == CATEGORIES && t.costs.Keys == CATEGORIES
    && (forall c | c in CATEGORIES ::
          t.minutes[c] == SumMinutes(rows, month, c) && t.costs[c] == SumCosts(rows, month, c))
    && t.builds == CountOf(rows, month, Builds) && t.pending == CountOf(rows, month, Pending)
    && t.violations == CountOf(rows, month, Violations) && t.unpriced == CountOf(rows, month, Unpriced)
  }

  lemma OneMore(rows: seq<Usage>, row: Usage, month: Month)
    ensures forall c :: SumMinutes(rows + [row], month, c) == SumMinutes(rows, month, c) + Minutes(row, month, c)
    ensures forall c :: SumCosts(rows + [row], month, c) == SumCosts(rows, month, c) + Cost(row, month, c)
    ensures forall k ::
              CountOf(rows + [row], month, k) == CountOf(rows, month, k) + if Qualifies(row, month, k) then 1 else 0
  {
    assert (rows + [row])[..|rows|] == rows;
  }

  /** One pass of the loop. */
  method Tally(month: Month, row: Usage, before: Totals, ghost rows: seq<Usage>) returns (t: Totals)
    requires TotalsOf(rows, month, before)
    ensures TotalsOf(rows + [row], month, t)
  {
    hide SumMinutes, SumCosts, CountOf, Price;
    t := before;
    OneMore(rows, row, month);
    if month !in row.minutes { return; }
    t := t.(builds := t.builds + 1, violations := t.violations + if row.violation then 1 else 0);
    if !row.complete {
      t := t.(pending := t.pending + 1);
      return;
    }
    var value := row.minutes[month];
    assert row.category in CATEGORIES;
    t := t.(minutes := t.minutes[row.category := t.minutes[row.category] + value]);
    if row.rate.None? {
      t := t.(unpriced := t.unpriced + 1);
    } else {
      t := t.(costs := t.costs[row.category := t.costs[row.category] + Price(value, row.rate.value)]);
    }
  }

  /** The loop of aggregate: every total is the sum over the rows that count, and the categories together make up the
      month. */
  method Aggregate(month: Month, rows: seq<Usage>) returns (t: Totals)
    ensures TotalsOf(rows, month, t)
    ensures t.minutes[Deployment] + t.minutes[ReleaseQuality] + t.minutes[Other] == ProjectMinutes(rows, month)
  {
    var zero := map[Deployment := 0.0, ReleaseQuality := 0.0, Other := 0.0];
    t := Totals(zero, zero, 0, 0, 0, 0);
    assert rows[..0] == [];
    for i := 0 to |rows|
      invariant TotalsOf(rows[..i], month, t)
    {
      assert rows[..i] + [rows[i]] == rows[..i + 1];
      t := Tally(month, rows[i], t, rows[..i]);
    }
    assert rows[..|rows|] == rows;
    NothingElsewhere(rows, month);
  }

  /** The categories share the month's minutes out without loss. */
  lemma {:induction false} NothingElsewhere(rows: seq<Usage>, month: Month)
    ensures SumMinutes(rows, month, Deployment) + SumMinutes(rows, month, ReleaseQuality)
            + SumMinutes(rows, month, Other)
         == ProjectMinutes(rows, month)
  {
    if rows != [] { NothingElsewhere(rows[..|rows| - 1], month); }
  }

  lemma {:induction false} SumAppend(a: seq<Usage>, b: seq<Usage>, month: Month, category: Category, counter: Counter)
    ensures SumMinutes(a + b, month, category) == SumMinutes(a, month, category) + SumMinutes(b, month, category)
    ensures SumCosts(a + b, month, category) == SumCosts(a, month, category) + SumCosts(b, month, category)
    ensures CountOf(a + b, month, counter) == CountOf(a, month, counter) + CountOf(b, month, counter)
  {
    hide Minutes, Cost, Qualifies;
    if b == [] {
      assert a + b == a;
    } else {
      assert (a + b)[..|a + b| - 1] == a + b[..|b| - 1];
      SumAppend(a, b[..|b| - 1], month, category, counter);
    }
  }

  lemma WithoutOne(a: seq<Usage>, b: seq<Usage>, rest: seq<Usage>, front: seq<Usage>, row: Usage, back: seq<Usage>)
    requires multiset(a) == multiset(b) && a == rest + [row] && b == front + ([row] + back)
    ensures multiset(rest) == multiset(front + back)
  {
    assert multiset(a) == multiset(rest) + multiset{row};
    assert multiset(b) == multiset(front) + multiset{row} + multiset(back);
    assert multiset(rest) == multiset(a) - multiset{row};
  }

  /** At one rate, what the priced builds of a category cost is that rate times their minutes. */
  lemma {:induction false} CostsAtOneRate(rows: seq<Usage>, month: Month, category: Category, rate: real)
    requires forall row | row in rows && Counted(row, month) && row.category == category :: row.rate == Some(rate)
    ensures SumCosts(rows, month, category) == rate * SumMinutes(rows, month, category)
  {
    hide Minutes, Cost, Counted;
    if rows != [] {
      var row, rest := rows[|rows| - 1], rows[..|rows| - 1];
      assert row in rows && forall x | x in rest :: x in rows;
      CostsAtOneRate(rest, month, category, rate);
      CostAtRate(row, month, category, rate);
      Distribute(rate, SumMinutes(rest, month, category), Minutes(row, month, category));
    }
  }

  lemma CostAtRate(row: Usage, month: Month, category: Category, rate: real)
    requires Counted(row, month) && row.category == category ==> row.rate == Some(rate)
    ensures Cost(row, month, category) == rate * Minutes(row, month, category)
  {
  }

  lemma Distribute(a: real, b: real, c: real)
    ensures a * (b + c) == a * b + a * c
  {
  }

  /** The order in which the ledger hands out its rows does not matter. */
  lemma {:induction false} SumPermutes(a: seq<Usage>, b: seq<Usage>, month: Month, category: Category, counter: Counter)
    requires multiset(a) == multiset(b)
    ensures SumMinutes(a, month, category) == SumMinutes(b, month, category)
    ensures SumCosts(a, month, category) == SumCosts(b, month, category)
    ensures CountOf(a, month, counter) == CountOf(b, month, counter)
    decreases |a|
  {
    hide Minutes, Cost, Qualifies;
    if a == [] {
      assert |multiset(b)| == 0;
    } else {
      var row, rest := a[|a| - 1], a[..|a| - 1];
      assert a == rest + [row];
      assert row in multiset(b);
      var k :| 0 <= k < |b| && b[k] == row;
      var front, back := b[..k], b[k + 1..];
      assert b == front + ([row] + back);
      WithoutOne(a, b, rest, front, row, back);
      SumPermutes(rest, front + back, month, category, counter);
      SumAppend(rest, [row], month, category, counter);
      SumAppend(front, [row] + back, month, category, counter);
      SumAppend([row], back, month, category, counter);
      SumAppend(front, back, month, category, counter);
    }
  }

  /** So the same rows have the same totals, costs and counters, in whatever order they come. */
  lemma SameTotals(a: seq<Usage>, b: seq<Usage>, month: Month, t: Totals, u: Totals)
    requires multiset(a) == multiset(b) && TotalsOf(a, month, t) && TotalsOf(b, month, u)
    ensures t == u
  {
    hide SumMinutes, SumCosts, CountOf;
    forall c, k
      ensures SumMinutes(a, month, c) == SumMinutes(b, month, c) && SumCosts(a, month, c) == SumCosts(b, month, c)
              && CountOf(a, month, k) == CountOf(b, month, k)
    {
      SumPermutes(a, b, month, c, k);
    }
    assert t.minutes == u.minutes && t.costs == u.costs;
  }
}
