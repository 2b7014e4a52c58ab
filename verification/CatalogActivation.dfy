/** scripts/reconnections_catalog_activate.py: activating a catalog on a service that others may write at any time,
    guarded by etags. */
module CatalogActivation {
  import opened Faults
  import opened Lexical

  datatype Option<+T> = None | Some(value: T)

  // The service document

  datatype EnvRow = EnvRow(name: string, value: Option<string>, source: string)

  datatype Template = Template(revision: string, image: string, env: seq<EnvRow>, rest: nat)

  /** A traffic row; an untagged row has the empty tag. */
  datatype Row = Row(revision: string, percent: int, tag: string)

  datatype Service = Service(etag: nat, name: string, template: Template, rows: seq<Row>, reconciling: bool,
                             building: bool, latestReady: string, latestCreated: string)

  /** What was reviewed: the service, the two catalogs and the names of the revisions. */
  datatype Review = Review(name: string, image: string, baseSha: string, basePath: string, newSha: string,
                           newPath: string, oldRevision: string, revision: string, tag: string)

  const SHA_VAR := "ENG_PLATFORM_CATALOG_SHA256"
  const PATH_VAR := "ENG_PLATFORM_CATALOG_PATH"

  // Traffic

  function Sum(rows: seq<Row>): int { if rows == [] then 0 else rows[0].percent + Sum(rows[1..]) }

  /** The share of the traffic a revision gets. */
  ghost function Share(rows: seq<Row>, revision: string): int {
    if rows == [] then 0 else (if rows[0].revision == revision then rows[0].percent else 0) + Share(rows[1..], revision)
  }

  ghost function CountOf(rows: seq<Row>, revision: string): nat {
    if rows == [] then 0 else (if rows[0].revision == revision then 1 else 0) + CountOf(rows[1..], revision)
  }

  predicate InOrder(a: Row, b: Row) {
    if a.revision == b.revision then AtMost(a.tag, b.tag) else AtMost(a.revision, b.revision)
  }

  function Insert(x: Row, rows: seq<Row>): seq<Row> {
    if rows == [] || InOrder(x, rows[0]) then [x] + rows else [rows[0]] + Insert(x, rows[1..])
  }

  /** sorted by revision and tag. */
  function Sorted(rows: seq<Row>): seq<Row> {
    if rows == [] then [] else Insert(rows[0], Sorted(rows[1..]))
  }

  /** traffic_status: the sorted allocation of a settled service, none when it is not a complete one. */
  function TrafficStatus(service: Service): Option<seq<Row>> {
    if service.reconciling || service.etag == 0 || service.rows == [] then None
    else if exists row :: row in service.rows && (row.revision == "" || row.percent < 0) then None
    else if Sum(service.rows) != 100 then None
    else Some(Sorted(service.rows))
  }

  lemma {:induction false} InsertKeeps(x: Row, rows: seq<Row>, r: string)
    ensures Sum(Insert(x, rows)) == x.percent + Sum(rows)
    ensures Share(Insert(x, rows), r) == Share([x] + rows, r) && CountOf(Insert(x, rows), r) == CountOf([x] + rows, r)
    ensures multiset(Insert(x, rows)) == multiset([x] + rows)
  {
    assert ([x] + rows)[1..] == rows;
    if rows != [] && !InOrder(x, rows[0]) {
      InsertKeeps(x, rows[1..], r);
      assert ([x] + rows[1..])[1..] == rows[1..];
      var s := [rows[0]] + Insert(x, rows[1..]);
      assert s[1..] == Insert(x, rows[1..]);
      assert rows == [rows[0]] + rows[1..];
    }
  }

  lemma {:induction false} SortedKeeps(rows: seq<Row>, r: string)
    ensures Sum(Sorted(rows)) == Sum(rows) && Share(Sorted(rows), r) == Share(rows, r)
            && CountOf(Sorted(rows), r) == CountOf(rows, r)
    ensures multiset(Sorted(rows)) == multiset(rows)
  {
    if rows != [] {
      SortedKeeps(rows[1..], r);
      InsertKeeps(rows[0], Sorted(rows[1..]), r);
      var t := [rows[0]] + Sorted(rows[1..]);
      assert t[1..] == Sorted(rows[1..]) && rows == [rows[0]] + rows[1..];
    }
  }

  // The candidate

  /** env_values: the environment of the one reviewed container, none when names repeat or the image differs. */
  function EnvValues(review: Review, template: Template): Option<map<string, Option<string>>> {
    if template.image != review.image || !DistinctNames(template.env) then None else Some(Environment(template.env))
  }

  predicate DistinctNames(env: seq<EnvRow>) { forall i, j | 0 <= i < j < |env| :: env[i].name != env[j].name }

  function Environment(env: seq<EnvRow>): map<string, Option<string>> {
    if env == [] then map[] else Environment(env[1..])[env[0].name := env[0].value]
  }

  function Repointed(review: Review, env: seq<EnvRow>): seq<EnvRow> {
    if env == [] then []
    else
      [if env[0].name == SHA_VAR then env[0].(value := Some(review.newSha))
       else if env[0].name == PATH_VAR then env[0].(value := Some(review.newPath)) else env[0]]
      + Repointed(review, env[1..])
  }

  datatype Plan = Plan(template: Template, previous: seq<Row>, targets: seq<Row>)

  /** [row["revision"] for row in previous if row["percent"]]. */
  function ServingRevisions(rows: seq<Row>): seq<string> {
    if rows == [] then [] else (if rows[0].percent != 0 then [rows[0].revision] else []) + ServingRevisions(rows[1..])
  }

  /** prepare_candidate. */
  function PrepareCandidate(review: Review, service: Service): Option<Plan> {
    var env := EnvValues(review, service.template);
    var status := TrafficStatus(service);
    if service.name != review.name || service.latestReady != review.oldRevision
       || service.latestCreated != review.oldRevision
    then None
    else if env.None? || service.building then None
    else if SHA_VAR !in env.value || env.value[SHA_VAR] != Some(review.baseSha) then None
    else if PATH_VAR !in env.value || env.value[PATH_VAR] != Some(review.basePath) then None
    else if status.None? || ServingRevisions(status.value) != [review.oldRevision] then None
    else if exists row :: row in status.value && (row.tag == review.tag || row.revision == review.revision) then None
    else
      Some(Plan(service.template.(revision := review.revision, env := Repointed(review, service.template.env)),
                status.value, Sorted(status.value + [Row(review.revision, 0, review.tag)])))
  }

  /** The plan with all the traffic on the candidate. */
  function Promoted(review: Review, targets: seq<Row>): seq<Row> {
    if targets == [] then []
    else
      [targets[0].(percent := if targets[0].revision == review.revision then 100 else 0)]
      + Promoted(review, targets[1..])
  }

  /** template_identity: the environment does not depend on the order of its rows. */
  predicate SameTemplate(a: Template, b: Template) {
    a.revision == b.revision && a.image == b.image && multiset(a.env) == multiset(b.env) && a.rest == b.rest
  }

  /** assert_candidate. */
  predicate CandidateServed(review: Review, service: Service, template: Template, targets: seq<Row>) {
    && service.name == review.name && SameTemplate(service.template, template)
    && TrafficStatus(service) == Some(targets)
    && service.latestReady == review.revision && service.latestCreated == review.revision
  }

  // What a plan guarantees

  lemma {:induction false} CountNone(rows: seq<Row>, r: string)
    requires forall row | row in rows :: row.revision != r
    ensures CountOf(rows, r) == 0 && Share(rows, r) == 0
  {
    if rows != [] {
      assert rows[0] in rows;
      forall row | row in rows[1..] ensures row.revision != r { assert row in rows; }
      CountNone(rows[1..], r);
    }
  }

  lemma {:induction false} AddOne(rows: seq<Row>, x: Row, r: string)
    ensures Sum(rows + [x]) == Sum(rows) + x.percent
    ensures Share(rows + [x], r) == Share(rows, r) + (if x.revision == r then x.percent else 0)
    ensures CountOf(rows + [x], r) == CountOf(rows, r) + (if x.revision == r then 1 else 0)
  {
    if rows == [] {
      assert rows + [x] == [x];
    } else {
      assert (rows + [x])[1..] == rows[1..] + [x];
      AddOne(rows[1..], x, r);
    }
  }

  lemma {:induction false} PromotedSums(review: Review, targets: seq<Row>, r: string)
    ensures Sum(Promoted(review, targets)) == 100 * CountOf(targets, review.revision)
    ensures Share(Promoted(review, targets), r) == if r == review.revision then 100 * CountOf(targets, r) else 0
  {
    if targets != [] {
      PromotedSums(review, targets[1..], r);
      var p := Promoted(review, targets);
      assert p[1..] == Promoted(review, targets[1..]);
    }
  }

  /** A status is the settled, complete allocation of the service: its rows, none negative, summing to 100. */
  lemma StatusSums(service: Service)
    ensures TrafficStatus(service).Some? <==>
              && !service.reconciling && service.etag != 0 && Sum(service.rows) == 100
              && forall row | row in service.rows :: row.revision != "" && row.percent >= 0
    ensures TrafficStatus(service).Some? ==>
              && Sum(TrafficStatus(service).value) == 100
              && multiset(TrafficStatus(service).value) == multiset(service.rows)
              && forall row | row in TrafficStatus(service).value :: row.revision != "" && row.percent >= 0
  {
    SortedKeeps(service.rows, "");
    forall row | row in Sorted(service.rows) ensures row in service.rows {
      assert row in multiset(Sorted(service.rows));
    }
  }

  lemma InOrderTransitive(a: Row, b: Row, c: Row)
    requires InOrder(a, b) && InOrder(b, c)
    ensures InOrder(a, c)
  {
    if a.revision == b.revision == c.revision {
      AtMostTransitive(a.tag, b.tag, c.tag);
    } else if a.revision != b.revision && b.revision != c.revision {
      AtMostTransitive(a.revision, b.revision, c.revision);
      AtMostTotal(a.revision, b.revision);
      AtMostTotal(b.revision, c.revision);
    }
  }

  lemma InOrderTotal(a: Row, b: Row)
    ensures InOrder(a, b) || InOrder(b, a)
    ensures InOrder(a, b) && InOrder(b, a) ==> a.revision == b.revision && a.tag == b.tag
  {
    AtMostTotal(a.revision, b.revision);
    AtMostTotal(a.tag, b.tag);
  }

  lemma {:induction false} InsertRanks(x: Row, rows: seq<Row>)
    requires Ranked(rows, (a, b) => InOrder(a, b))
    ensures Ranked(Insert(x, rows), (a, b) => InOrder(a, b))
  {
    hide InOrder;
    if rows == [] {
    } else if InOrder(x, rows[0]) {
      forall y | y in rows ensures InOrder(x, y) {
        var k :| 0 <= k < |rows| && rows[k] == y;
        if k > 0 { InOrderTransitive(x, rows[0], y); }
      }
      RankedCons(x, rows, (a, b) => InOrder(a, b));
    } else {
      var rest := Insert(x, rows[1..]);
      InsertRanks(x, rows[1..]);
      InsertKeeps(x, rows[1..], "");
      InOrderTotal(x, rows[0]);
      forall y | y in rest ensures InOrder(rows[0], y) {
        assert y in multiset([x] + rows[1..]);
        if y != x { var k :| 0 <= k < |rows| - 1 && rows[1..][k] == y; assert y == rows[k + 1]; }
      }
      RankedCons(rows[0], rest, (a, b) => InOrder(a, b));
    }
  }

  lemma {:induction false} SortedRanks(rows: seq<Row>)
    ensures Ranked(Sorted(rows), (a, b) => InOrder(a, b))
  {
    if rows != [] {
      SortedRanks(rows[1..]);
      InsertRanks(rows[0], Sorted(rows[1..]));
    }
  }

  /** Comparing statuses does not depend on the order in which the service lists its rows. */
  lemma SameStatus(rows: seq<Row>, others: seq<Row>)
    requires multiset(rows) == multiset(others)
    requires forall x, y | x in rows && y in rows && x.revision == y.revision && x.tag == y.tag :: x == y
    ensures Sorted(rows) == Sorted(others)
  {
    SortedRanks(rows);
    SortedRanks(others);
    SortedKeeps(rows, "");
    SortedKeeps(others, "");
    forall x, y | x in Sorted(rows) && y in Sorted(rows) && InOrder(x, y) && InOrder(y, x) ensures x == y {
      assert x in multiset(rows) && y in multiset(rows);
      InOrderTotal(x, y);
    }
    OneRanking(Sorted(rows), Sorted(others), (a, b) => InOrder(a, b));
  }

  lemma {:induction false} ServingShares(rows: seq<Row>, r: string)
    ensures ServingRevisions(rows) == [] ==> Sum(rows) == 0 && Share(rows, r) == 0
    ensures |ServingRevisions(rows)| == 1 ==> Share(rows, r) == if r == ServingRevisions(rows)[0] then Sum(rows) else 0
  {
    if rows != [] { ServingShares(rows[1..], r); }
  }

  ghost predicate NonNegative(rows: seq<Row>) { forall row | row in rows :: row.percent >= 0 }

  lemma PreviousShares(review: Review, service: Service, r: string)
    requires PrepareCandidate(review, service).Some?
    ensures Share(PrepareCandidate(review, service).value.previous, r) == Share(service.rows, r)
  {
    SortedKeeps(service.rows, r);
  }

  lemma {:induction false} RowAtMost(rows: seq<Row>, row: Row)
    requires NonNegative(rows)
    ensures Sum(rows) >= 0 && (row in rows ==> row.percent <= Sum(rows))
  {
    if rows != [] {
      assert rows[0] in rows && forall x | x in rows[1..] :: x in rows;
      RowAtMost(rows[1..], row);
      if row in rows { assert row == rows[0] || row in rows[1..]; }
    }
  }

  /** One revision serves exactly when one of its rows has everything. */
  lemma {:induction false} OneServes(rows: seq<Row>, r: string)
    requires NonNegative(rows)
    ensures ServingRevisions(rows) == [] <==> Sum(rows) == 0
    ensures Sum(rows) > 0 ==>
              (ServingRevisions(rows) == [r]
               <==> exists row :: row in rows && row.revision == r && row.percent == Sum(rows))
  {
    if rows != [] {
      var first, rest := rows[0], rows[1..];
      assert first in rows && forall x | x in rest :: x in rows;
      OneServes(rest, r);
      RowAtMost(rest, first);
      forall row | row in rest ensures row.percent <= Sum(rest) { RowAtMost(rest, row); }
      if row :| row in rows && row.revision == r && row.percent == Sum(rows) { assert row == first || row in rest; }
    }
  }

  /** The service as it was reviewed: the base catalog on the reviewed image, no build and no newer revision, and one
      row of the reviewed revision with all the traffic. */
  ghost predicate AsReviewed(review: Review, service: Service) {
    && service.name == review.name && !service.building && !service.reconciling && service.etag != 0
    && service.latestReady == review.oldRevision && service.latestCreated == review.oldRevision
    && service.template.image == review.image
    && (forall i, j | 0 <= i < j < |service.template.env| ::
          service.template.env[i].name != service.template.env[j].name)
    && (exists row :: row in service.template.env && row.name == SHA_VAR && row.value == Some(review.baseSha))
    && (exists row :: row in service.template.env && row.name == PATH_VAR && row.value == Some(review.basePath))
    && (forall row | row in service.rows ::
          row.revision != "" && row.percent >= 0 && row.tag != review.tag && row.revision != review.revision)
    && Sum(service.rows) == 100
    && (exists row :: row in service.rows && row.revision == review.oldRevision && row.percent == 100)
  }

  lemma HasValue(env: seq<EnvRow>, name: string, value: string)
    requires DistinctNames(env)
    ensures (name in Environment(env) && Environment(env)[name] == Some(value))
       <==> exists row :: row in env && row.name == name && row.value == Some(value)
  {
    EnvironmentOnly(env, name);
    forall row | row in env ensures row.name in Environment(env) && Environment(env)[row.name] == row.value {
      EnvironmentHas(env, row);
    }
  }

  /** A plan is made exactly for the service as it was reviewed. */
  lemma PlanExactly(review: Review, service: Service)
    ensures PrepareCandidate(review, service).Some? <==> AsReviewed(review, service)
  {
    hide Sum, Environment, Sorted, Repointed;
    StatusSums(service);
    var rows, status := service.rows, Sorted(service.rows);
    SortedKeeps(rows, "");
    forall row ensures row in status <==> row in rows { assert row in multiset(status) <==> row in multiset(rows); }
    if DistinctNames(service.template.env) {
      HasValue(service.template.env, SHA_VAR, review.baseSha);
      HasValue(service.template.env, PATH_VAR, review.basePath);
    }
    if NonNegative(rows) { OneServes(status, review.oldRevision); }
  }

  /** A plan is made only for the reviewed service as it was reviewed: no build configured, no newer revision, the base
      catalog, and all traffic on the reviewed revision. */
  lemma PlanBase(review: Review, service: Service, r: string)
    requires PrepareCandidate(review, service).Some?
    ensures service.name == review.name && !service.building && service.template.image == review.image
    ensures service.latestReady == review.oldRevision && service.latestCreated == review.oldRevision
    ensures var env := Environment(service.template.env);
            && SHA_VAR in env && env[SHA_VAR] == Some(review.baseSha)
            && PATH_VAR in env && env[PATH_VAR] == Some(review.basePath)
    ensures Share(PrepareCandidate(review, service).value.previous, r) == if r == review.oldRevision then 100 else 0
  {
    StatusSums(service);
    ServingShares(PrepareCandidate(review, service).value.previous, r);
  }

  /** Every traffic list a run writes is a complete allocation: the plan keeps every share and the promotion moves all
      of the traffic to the candidate, which has exactly one row. */
  lemma PlanTraffic(review: Review, service: Service, r: string)
    requires PrepareCandidate(review, service).Some?
    ensures var plan := PrepareCandidate(review, service).value;
            && Sum(plan.previous) == Sum(plan.targets) == Sum(Promoted(review, plan.targets)) == 100
            && Share(plan.targets, r) == Share(plan.previous, r)
            && CountOf(plan.targets, review.revision) == 1
            && Share(Promoted(review, plan.targets), r) == (if r == review.revision then 100 else 0)
            && plan.targets != Promoted(review, plan.targets)
  {
    var plan := PrepareCandidate(review, service).value;
    var added := Row(review.revision, 0, review.tag);
    StatusSums(service);
    forall row | row in plan.previous ensures row.revision != review.revision {}
    CountNone(plan.previous, review.revision);
    AddOne(plan.previous, added, r);
    AddOne(plan.previous, added, review.revision);
    SortedKeeps(plan.previous + [added], r);
    SortedKeeps(plan.previous + [added], review.revision);
    PromotedSums(review, plan.targets, r);
    PromotedSums(review, plan.targets, review.revision);
  }

  lemma {:induction false} RepointedMeans(review: Review, env: seq<EnvRow>)
    requires DistinctNames(env)
    ensures |Repointed(review, env)| == |env|
    ensures Environment(Repointed(review, env)).Keys == Environment(env).Keys
    ensures forall n | n in Environment(env) ::
              Environment(Repointed(review, env))[n] == if n == SHA_VAR then Some(review.newSha)
                                                        else if n == PATH_VAR then Some(review.newPath)
                                                        else Environment(env)[n]
    ensures forall i | 0 <= i < |env| ::
              Repointed(review, env)[i].name == env[i].name && Repointed(review, env)[i].source == env[i].source
  {
    if env != [] {
      assert DistinctNames(env[1..]);
      RepointedMeans(review, env[1..]);
      var t := Repointed(review, env);
      assert t[1..] == Repointed(review, env[1..]);
    }
  }

  /** The candidate's template is the one in production with a new revision name and the two catalog variables. */
  lemma PlanTemplate(review: Review, service: Service)
    requires PrepareCandidate(review, service).Some?
    ensures var before, after := service.template, PrepareCandidate(review, service).value.template;
            && after.revision == review.revision && after.image == before.image && after.rest == before.rest
            && Environment(after.env)
               == Environment(before.env)[SHA_VAR := Some(review.newSha)][PATH_VAR := Some(review.newPath)]
  {
    RepointedMeans(review, service.template.env);
  }

  lemma {:induction false} EnvironmentHas(env: seq<EnvRow>, row: EnvRow)
    requires DistinctNames(env) && row in env
    ensures row.name in Environment(env) && Environment(env)[row.name] == row.value
  {
    if env[0] != row {
      assert row in env[1..] && env[0].name != row.name;
      EnvironmentHas(env[1..], row);
    }
  }

  lemma {:induction false} EnvironmentOnly(env: seq<EnvRow>, name: string)
    ensures name in Environment(env) <==> exists row :: row in env && row.name == name
  {
    if env != [] {
      EnvironmentOnly(env[1..], name);
      if row :| row in env && row.name == name { assert row == env[0] || row in env[1..]; }
      if row :| row in env[1..] && row.name == name { assert row in env; }
      assert env[0] in env;
    }
  }

  lemma {:induction false} SameDistinct(a: seq<EnvRow>, b: seq<EnvRow>)
    requires multiset(a) == multiset(b) && DistinctNames(a)
    ensures DistinctNames(b)
  {
    forall i, j | 0 <= i < j < |b| ensures b[i].name != b[j].name {
      if b[i].name == b[j].name {
        assert b[i] in multiset(a) && b[j] in multiset(a);
        var k :| 0 <= k < |a| && a[k] == b[i];
        var l :| 0 <= l < |a| && a[l] == b[j];
        assert k == l;
        TwiceThere(b, i, j);
        OnceThere(a, k);
      }
    }
  }

  lemma TwiceThere<T>(s: seq<T>, i: nat, j: nat)
    requires i < j < |s| && s[i] == s[j]
    ensures multiset(s)[s[i]] >= 2
  {
    assert s == s[..i] + [s[i]] + s[i + 1..j] + [s[j]] + s[j + 1..];
  }

  lemma OnceThere(env: seq<EnvRow>, k: nat)
    requires DistinctNames(env) && k < |env|
    ensures multiset(env)[env[k]] == 1
  {
    assert env == env[..k] + [env[k]] + env[k + 1..];
    assert env[k] !in env[..k] && env[k] !in env[k + 1..];
  }

  /** The same template, seen through its environment: what the order of the rows leaves open does not show. */
  lemma SameTemplateMeans(a: Template, b: Template)
    requires SameTemplate(a, b) && DistinctNames(b.env)
    ensures a.revision == b.revision && a.image == b.image && a.rest == b.rest
    ensures Environment(a.env) == Environment(b.env)
  {
    SameDistinct(b.env, a.env);
    forall n ensures n in Environment(a.env) <==> n in Environment(b.env) {
      EnvironmentOnly(a.env, n);
      EnvironmentOnly(b.env, n);
      if row :| row in a.env && row.name == n { assert row in multiset(b.env); }
      if row :| row in b.env && row.name == n { assert row in multiset(a.env); }
    }
    forall n | n in Environment(a.env) ensures Environment(a.env)[n] == Environment(b.env)[n] {
      EnvironmentOnly(a.env, n);
      var row :| row in a.env && row.name == n;
      assert row in multiset(b.env);
      EnvironmentHas(a.env, row);
      EnvironmentHas(b.env, row);
    }
  }

  // The service under concurrent writers

  /** An update that took effect: the state it replaced, the template it wrote, if any, and the traffic it wrote. */
  datatype Patch = Patch(replaced: Service, template: Option<Template>, traffic: seq<Row>)

  datatype Exit = Verified | Restored | Stopped

  datatype Check = Stored | TaggedSmoke | Smoke

  /** A check that passed, after so many of the run's own updates had taken effect. */
  datatype Passed = Passed(check: Check, updates: nat)

  lemma PlanShares(review: Review, service: Service)
    requires PrepareCandidate(review, service).Some?
    ensures var plan := PrepareCandidate(review, service).value;
            && Sum(plan.previous) == Sum(plan.targets) == Sum(Promoted(review, plan.targets)) == 100
            && forall r :: Share(plan.targets, r) == Share(plan.previous, r)
                           && Share(Promoted(review, plan.targets), r) == if r == review.revision then 100 else 0
  {
    PlanTraffic(review, service, "");
    forall r
      ensures Share(PrepareCandidate(review, service).value.targets, r)
              == Share(PrepareCandidate(review, service).value.previous, r)
      ensures Share(Promoted(review, PrepareCandidate(review, service).value.targets), r)
              == if r == review.revision then 100 else 0
    {
      PlanTraffic(review, service, r);
    }
  }

  lemma CandidateIs(review: Review, service: Service, template: Template, targets: seq<Row>)
    requires CandidateServed(review, service, template, targets)
    ensures service.name == review.name && SameTemplate(service.template, template)
    ensures service.latestReady == review.revision && service.latestCreated == review.revision
    ensures TrafficStatus(service) == Some(targets)
  {
    hide TrafficStatus, SameTemplate;
  }

  /** The service with the candidate in production: ready, with the reviewed template but for its revision and the two
      catalog variables, and with all the traffic. */
  ghost predicate Live(review: Review, before: Service, now: Service) {
    && now.name == review.name && now.latestReady == review.revision && now.latestCreated == review.revision
    && now.template.revision == review.revision && now.template.image == before.template.image
    && now.template.rest == before.template.rest
    && Environment(now.template.env)
       == Environment(before.template.env)[SHA_VAR := Some(review.newSha)][PATH_VAR := Some(review.newPath)]
    && TrafficStatus(now).Some?
    && forall r :: Share(TrafficStatus(now).value, r) == if r == review.revision then 100 else 0
  }

  lemma LiveIs(review: Review, original: Service, live: Service)
    requires PrepareCandidate(review, original).Some?
    requires var plan := PrepareCandidate(review, original).value;
             CandidateServed(review, live, plan.template, Promoted(review, plan.targets))
    ensures Live(review, original, live)
  {
    hide PrepareCandidate, CandidateServed, TrafficStatus, Promoted, SameTemplate, Sum, Share, Environment;
    var plan := PrepareCandidate(review, original).value;
    CandidateIs(review, live, plan.template, Promoted(review, plan.targets));
    PlanShares(review, original);
    PlanTemplate(review, original);
    PlanNames(review, original);
    SameTemplateMeans(live.template, plan.template);
  }

  lemma PlanNames(review: Review, service: Service)
    requires PrepareCandidate(review, service).Some?
    ensures DistinctNames(PrepareCandidate(review, service).value.template.env)
  {
    RepointedMeans(review, service.template.env);
  }

  // What a run may write

  /** What this run may replace, and with what: a state that passed the checks of that very stage. */
  ghost predicate Allowed(review: Review, original: Service, p: Patch) {
    PrepareCandidate(review, original).Some? && Sum(p.traffic) == 100
    && (Creates(review, original, p) || Promotes(review, original, p) || Restores(review, original, p))
  }

  ghost predicate Creates(review: Review, original: Service, p: Patch)
    requires PrepareCandidate(review, original).Some?
  {
    var plan := PrepareCandidate(review, original).value;
    p.replaced == original && p.template == Some(plan.template) && p.traffic == plan.targets
  }

  ghost predicate Promotes(review: Review, original: Service, p: Patch)
    requires PrepareCandidate(review, original).Some?
  {
    var plan := PrepareCandidate(review, original).value;
    && p.replaced.name == review.name && SameTemplate(p.replaced.template, plan.template)
    && p.replaced.latestReady == review.revision && p.replaced.latestCreated == review.revision
    && TrafficStatus(p.replaced) == Some(plan.targets)
    && p.template == None && p.traffic == Promoted(review, plan.targets)
  }

  ghost predicate Restores(review: Review, original: Service, p: Patch)
    requires PrepareCandidate(review, original).Some?
  {
    var plan := PrepareCandidate(review, original).value;
    && SameTemplate(p.replaced.template, plan.template)
    && TrafficStatus(p.replaced) == Some(Promoted(review, plan.targets))
    && p.template == None && p.traffic == plan.previous
  }

  ghost predicate AllAllowed(review: Review, original: Service, patches: seq<Patch>) {
    forall p | p in patches :: Allowed(review, original, p)
  }

  ghost predicate Extends(a: map<nat, Service>, b: map<nat, Service>) { forall e | e in a :: e in b && b[e] == a[e] }

  ghost predicate Seen(past: map<nat, Service>, s: Service) { s.etag in past && past[s.etag] == s }

  class CloudRun {
    const script: seq<Fault>
    var service: Service
    /** The requests sent so far, and how many of them reported a failure. */
    var requests: nat
    var failures: nat
    /** Every state the service has been in, by its etag; an etag is never used twice. */
    ghost var past: map<nat, Service>
    /** The updates of this run that took effect, and the checks that passed. */
    ghost var patches: seq<Patch>
    ghost var passed: seq<Passed>
    /** What the successful reads returned. */
    ghost var read: seq<Service>

    ghost predicate Valid()
      reads this
    {
      Seen(past, service) && forall e | e in past :: e <= service.etag
    }

    constructor (script: seq<Fault>, service: Service)
      ensures this.script == script && this.service == service && patches == [] && passed == [] && Valid()
      ensures requests == 0 && failures == 0
    {
      this.script, this.service, this.requests, this.failures := script, service, 0, 0;
      past, patches, passed, read := map[service.etag := service], [], [], [];
    }

    /** Nothing in the script fails. */
    ghost predicate Smooth() { forall f | f in script :: f.Succeeds? }

    /** How the next request falls out: one that is not possible fails. */
    method Next(possible: bool) returns (fault: Fault)
      modifies this`requests, this`failures
      ensures requests == old(requests) + 1 && failures == old(failures) + if fault.Succeeds? then 0 else 1
      ensures fault == if possible then Scripted(script, old(requests)) else FailsBefore
    {
      fault := if possible then Scripted(script, requests) else FailsBefore;
      requests := requests + 1;
      if fault != Succeeds { failures := failures + 1; }
    }

    /** Anyone may replace the whole service. */
    method Others()
      requires Valid()
      modifies this`service, this`past
      ensures Valid() && Extends(old(past), past)
    {
      var writes: nat := *;
      while writes > 0
        invariant Valid() && Extends(old(past), past)
      {
        var next: Service := *;
        next := next.(etag := service.etag + 1);
        service, past := next, past[next.etag := next];
        writes := writes - 1;
      }
    }

    /** service() and stable_service(): a read, after whatever others did. */
    method Read(stable: bool) returns (ok: bool, s: Service)
      requires Valid()
      modifies this`service, this`past, this`requests, this`failures, this`read
      ensures Valid() && Extends(old(past), past)
      ensures failures == old(failures) + if ok then 0 else 1
      ensures read == if ok then old(read) + [s] else old(read)
      ensures Seen(past, s) && (ok && stable ==> !s.reconciling)
      ensures Smooth() && !ok ==> stable && s.reconciling
    {
      Others();
      s := service;
      var fault := Next(stable ==> !s.reconciling);
      ok := fault == Succeeds;
      if ok { read := read + [s]; }
    }

    /** update(): refused unless the etag is current, and able to fail before or after it took effect. The state it
        leaves is whatever the server and the other writers make of it. */
    method Update(etag: nat, template: Option<Template>, traffic: seq<Row>, ghost checked: Service)
      returns (ok: bool, s: Service)
      requires Valid() && Seen(past, checked) && checked.etag == etag
      modifies this`service, this`past, this`patches, this`requests, this`failures, this`read
      ensures Valid() && Extends(old(past), past)
      ensures read == if ok then old(read) + [s] else old(read)
      ensures patches == old(patches) || patches == old(patches) + [Patch(checked, template, traffic)]
      ensures ok ==> patches == old(patches) + [Patch(checked, template, traffic)]
      ensures failures == old(failures) + if ok then 0 else 1
      ensures ok ==> Seen(past, s) && !s.reconciling
      ensures patches != old(patches) ==> service.etag > etag
      ensures Smooth() && !ok ==> s.reconciling || (s.etag > etag && patches == old(patches))
    {
      Others();
      s := service;
      var fault := Next(service.etag == etag);
      if fault == FailsBefore { return false, s; }
      patches := patches + [Patch(service, template, traffic)];
      var next: Service := *;
      next := next.(etag := service.etag + 1);
      service, past := next, past[next.etag := next];
      if fault == FailsAfter { return false, s; }
      ok, s := Read(true);
    }

    method Attempt(check: Check) returns (ok: bool)
      modifies this`requests, this`failures, this`passed
      ensures Smooth() ==> ok
      ensures failures == old(failures) + if ok then 0 else 1
      ensures passed == if ok then old(passed) + [Passed(check, |patches|)] else old(passed)
    {
      var fault := Next(true);
      ok := fault == Succeeds;
      if ok { passed := passed + [Passed(check, |patches|)]; }
    }

    /** activate: whatever others write in between, an update of this run replaces only a state the run itself checked
        for that purpose, and writes a complete allocation. A run that ends verified stored the catalog, created the
        candidate, tried it through its tag, promoted it and tried the service, in this order. */
    method Activate(review: Review) returns (exit: Exit, ghost original: Service, ghost last: Service)
      requires Valid() && patches == [] && passed == []
      modifies this
      ensures Valid() && AllAllowed(review, original, patches)
      ensures exit != Stopped ==> Seen(past, original) && AsReviewed(review, original)
                                  && Seen(past, last) && TrafficStatus(last).Some?
      ensures exit.Verified? ==>
                && failures == old(failures) && Live(review, original, last)
                && |patches| == 2 && patches[0].template.Some? && patches[1].template.None?
                && passed == [Passed(Stored, 0), Passed(TaggedSmoke, 1), Passed(Smoke, 2)]
      ensures exit.Restored? ==>
                && TaggedFirst(passed)
                && forall r :: Share(TrafficStatus(last).value, r) == Share(original.rows, r)
    {
      hide PrepareCandidate, CandidateServed, TrafficStatus, Promoted, SameTemplate, Sum, Share, Live, AsReviewed;
      var ok, plan, current;
      ok, plan, current, original := StageCandidate(review);
      last := original;
      if !ok { return Stopped, original, last; }
      PlanExactly(review, original);
      ghost var met, seen;
      exit, last, met, seen := PromoteOrRestore(review, plan, current, original);
      PlanShares(review, original);
      forall r ensures Share(plan.previous, r) == Share(original.rows, r) { PreviousShares(review, original, r); }
      if exit.Verified? { LiveIs(review, original, last); }
    }

    /** The catalog was stored and the candidate tried through its tag before the promotion. */
    ghost predicate TaggedFirst(checks: seq<Passed>) {
      |checks| >= 2 && checks[0] == Passed(Stored, 0) && checks[1] == Passed(TaggedSmoke, 1)
    }

    /** The candidate: created in the place of the original, tried through its tag, and read again. */
    method TryCandidate(review: Review, plan: Plan, original: Service) returns (ok: bool, current: Service)
      requires Valid() && patches == [] && Seen(past, original) && PrepareCandidate(review, original) == Some(plan)
      modifies this`service, this`past, this`patches, this`requests, this`failures, this`passed, this`read
      ensures Valid() && Extends(old(past), past) && AllAllowed(review, original, patches)
      ensures failures == old(failures) || failures == old(failures) + 1
      ensures ok ==>
                && Seen(past, current) && CandidateServed(review, current, plan.template, plan.targets)
                && patches == [Patch(original, Some(plan.template), plan.targets)]
                && failures == old(failures) && passed == old(passed) + [Passed(TaggedSmoke, 1)]
                && |read| == old(|read|) + 2 && read[old(|read|) + 1] == current
                && CandidateServed(review, read[old(|read|)], plan.template, plan.targets)
      ensures old(read) <= read && |read| <= old(|read|) + 2
      ensures !ok && failures == old(failures) ==>
                |read| > old(|read|) && !CandidateServed(review, read[|read| - 1], plan.template, plan.targets)
      ensures Smooth() && failures > old(failures) ==> read == old(read)
    {
      hide PrepareCandidate, CandidateServed, TrafficStatus, Promoted, SameTemplate, Sum, Share;
      PlanShares(review, original);
      ok, current := Update(original.etag, Some(plan.template), plan.targets, original);
      if !ok || !CandidateServed(review, current, plan.template, plan.targets) { return false, current; }
      ok := Attempt(TaggedSmoke); // the tagged URI answers
      if !ok { return; }
      ok, current := Read(false);
      ok := ok && CandidateServed(review, current, plan.template, plan.targets);
    }

    /** Up to the promotion: the candidate is created without traffic, checked and read again. It stops when a request
        fails, or when one of its four reads is not what it is to be. */
    method StageCandidate(review: Review) returns (ok: bool, plan: Plan, current: Service, ghost original: Service)
      requires Valid() && patches == [] && passed == []
      modifies this`service, this`past, this`patches, this`requests, this`failures, this`passed, this`read
      ensures Valid() && AllAllowed(review, original, patches)
      ensures ok ==> Seen(past, original) && PrepareCandidate(review, original) == Some(plan)
      ensures ok ==> Seen(past, current) && CandidateServed(review, current, plan.template, plan.targets)
      ensures ok ==> patches == [Patch(original, Some(plan.template), plan.targets)]
      ensures ok ==> failures == old(failures) && passed == [Passed(Stored, 0), Passed(TaggedSmoke, 1)]
      ensures old(read) <= read
      ensures ok ==>
                && |read| == old(|read|) + 4
                && read[old(|read|)] == read[old(|read|) + 1] == original && read[old(|read|) + 3] == current
                && CandidateServed(review, read[old(|read|) + 2], plan.template, plan.targets)
      ensures !ok && failures == old(failures) ==>
                var seen := read[old(|read|)..];
                || (|seen| == 1 && !AsReviewed(review, seen[0]))
                || (|seen| == 2 && seen[1] != seen[0])
                || (|seen| in {3, 4} && !CandidateServed(review, seen[|seen| - 1], plan.template, plan.targets))
      ensures Smooth() && failures > old(failures) ==> |read| == old(|read|) + 2
    {
      hide PrepareCandidate, CandidateServed, TrafficStatus, Promoted, SameTemplate, Sum, Share, AsReviewed;
      ok, current := Read(false);
      var first := current;
      original := first;
      plan := Plan(first.template, [], []);
      if !ok { return; }
      PlanExactly(review, first);
      var prepared := PrepareCandidate(review, first);
      if prepared.None? { return false, plan, current, original; }
      plan := prepared.value;
      ok := Attempt(Stored); // the immutable object is stored and read back
      if !ok { return; }
      ok, current := Read(false);
      if !ok || current != first { return false, plan, current, original; }
      ok, current := TryCandidate(review, plan, first);
    }

    /** The state is still the run's own: its template, and one of the two traffic lists it wrote. */
    ghost predicate Own(review: Review, plan: Plan, s: Service) {
      && SameTemplate(s.template, plan.template)
      && (TrafficStatus(s) == Some(plan.targets) || TrafficStatus(s) == Some(Promoted(review, plan.targets)))
    }

    /** The promotion with its checks. It fails only when a request does, or the update reads back something else. */
    method Promote(review: Review, plan: Plan, current: Service, ghost original: Service)
      returns (ok: bool, live: Service)
      requires Valid() && Seen(past, current) && AllAllowed(review, original, patches)
      requires PrepareCandidate(review, original) == Some(plan)
      requires CandidateServed(review, current, plan.template, plan.targets)
      modifies this`service, this`past, this`patches, this`requests, this`failures, this`passed, this`read
      ensures Valid() && Extends(old(past), past) && AllAllowed(review, original, patches)
      ensures failures == old(failures) || failures == old(failures) + 1
      ensures ok ==>
                && failures == old(failures) && Seen(past, live)
                && CandidateServed(review, live, plan.template, Promoted(review, plan.targets))
                && patches == old(patches) + [Patch(current, None, Promoted(review, plan.targets))]
                && passed == old(passed) + [Passed(Smoke, |patches|)]
      ensures !ok ==> passed == old(passed)
      ensures old(read) <= read && |read| <= old(|read|) + 1
      ensures !ok && failures == old(failures) ==>
                |read| == old(|read|) + 1
                && !CandidateServed(review, read[old(|read|)], plan.template, Promoted(review, plan.targets))
      ensures Smooth() && failures > old(failures) ==>
                live.reconciling || (live.etag > current.etag && patches == old(patches))
    {
      hide PrepareCandidate, TrafficStatus, Promoted, SameTemplate, Sum, Share, CandidateServed;
      PlanShares(review, original);
      CandidateIs(review, current, plan.template, plan.targets);
      ok, live := Update(current.etag, None, Promoted(review, plan.targets), current);
      if !ok { return; }
      ok := CandidateServed(review, live, plan.template, Promoted(review, plan.targets));
      if !ok { return; }
      ok := Attempt(Smoke); // the service answers
    }

    /** The way back: nothing to do when the promotion never took effect, the earlier traffic when it did. It fails only
        when a request does, or what it reads is not the run's own, or not the earlier traffic. */
    method GoBack(review: Review, plan: Plan, ghost original: Service) returns (ok: bool, last: Service)
      requires Valid() && AllAllowed(review, original, patches) && PrepareCandidate(review, original) == Some(plan)
      modifies this`service, this`past, this`patches, this`requests, this`failures, this`read
      ensures Valid() && Extends(old(past), past) && AllAllowed(review, original, patches)
      ensures failures == old(failures) || failures == old(failures) + 1
      ensures ok ==> failures == old(failures) && Seen(past, last)
      ensures old(read) <= read && forall s | s in read[old(|read|)..] :: !s.reconciling
      ensures ok ==> |read| > old(|read|) && read[|read| - 1] == last && Own(review, plan, read[old(|read|)])
      ensures ok && |read| == old(|read|) + 1 ==> patches == old(patches) && TrafficStatus(last) == Some(plan.targets)
      ensures ok && |read| > old(|read|) + 1 ==>
                && TrafficStatus(read[old(|read|)]) == Some(Promoted(review, plan.targets))
                && patches == old(patches) + [Patch(read[old(|read|)], None, plan.previous)]
                && TrafficStatus(last) == Some(plan.previous)
      ensures !ok && failures == old(failures) ==>
                && |read| > old(|read|)
                && (Own(review, plan, read[old(|read|)]) ==>
                      |read| == old(|read|) + 2 && TrafficStatus(read[|read| - 1]) != Some(plan.previous))
      ensures Smooth() && failures > old(failures) ==>
                last.reconciling
                || (|read| == old(|read|) + 1 && last.etag > read[old(|read|)].etag && patches == old(patches))
    {
      hide PrepareCandidate, TrafficStatus, Promoted, SameTemplate, Sum, Share;
      PlanShares(review, original);
      var promoted := Promoted(review, plan.targets);
      ok, last := Read(true);
      if !ok { return; }
      if !SameTemplate(last.template, plan.template) { return false, last; }
      var status := TrafficStatus(last);
      if status != Some(plan.targets) && status != Some(promoted) { return false, last; }
      if status != Some(promoted) { return; }
      ok, last := Update(last.etag, None, plan.previous, last);
      ok := ok && TrafficStatus(last) == Some(plan.previous);
    }

    /** The promotion, and the way back when it cannot be verified. `met` and `seen` count the failures and the reads up
        to the way back. The run stops short of both only when a request of the way back failed, or what was read on it
        was not its own, or not the earlier traffic. */
    method PromoteOrRestore(review: Review, plan: Plan, current: Service, ghost original: Service)
      returns (exit: Exit, ghost last: Service, ghost met: nat, ghost seen: nat)
      requires Valid() && Seen(past, current) && AllAllowed(review, original, patches)
      requires PrepareCandidate(review, original) == Some(plan)
      requires CandidateServed(review, current, plan.template, plan.targets)
      modifies this`service, this`past, this`patches, this`requests, this`failures, this`passed, this`read
      ensures Valid() && Extends(old(past), past) && AllAllowed(review, original, patches)
      ensures exit != Stopped ==> Seen(past, last) && TrafficStatus(last).Some?
      ensures old(failures) <= met <= old(failures) + 1 && met <= failures <= met + 1
      ensures old(|read|) <= seen <= old(|read|) + 1 && seen <= |read|
      ensures exit.Verified? ==>
                && failures == old(failures)
                && CandidateServed(review, last, plan.template, Promoted(review, plan.targets))
                && patches == old(patches) + [Patch(current, None, Promoted(review, plan.targets))]
                && passed == old(passed) + [Passed(Smoke, |patches|)]
      ensures !exit.Verified? ==> passed == old(passed)
      ensures !exit.Verified? && met == old(failures) ==>
                seen > old(|read|)
                && !CandidateServed(review, read[old(|read|)], plan.template, Promoted(review, plan.targets))
      ensures exit.Restored? ==>
                && failures == met && seen < |read| && Own(review, plan, read[seen])
                && TrafficStatus(last) == Some(if |read| == seen + 1 then plan.targets else plan.previous)
      ensures exit.Stopped? && failures == met ==>
                && seen < |read|
                && (Own(review, plan, read[seen]) ==>
                      |read| == seen + 2 && TrafficStatus(read[seen + 1]) != Some(plan.previous))
      ensures Smooth() && exit.Stopped? && failures > met ==>
                last.reconciling || (|read| == seen + 1 && last.etag > read[seen].etag)
    {
      hide PrepareCandidate, CandidateServed, TrafficStatus, Promoted, SameTemplate, Sum, Share, Own;
      var ok, live := Promote(review, plan, current, original);
      last, met, seen := live, failures, |read|;
      if ok {
        CandidateIs(review, live, plan.template, Promoted(review, plan.targets));
        return Verified, last, met, seen;
      }
      var state;
      ok, state := GoBack(review, plan, original);
      last := state;
      exit := if ok then Restored else Stopped;
    }
  }
}
