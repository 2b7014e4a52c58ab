/** prepare of scripts/pin_github_defaults_catalog.py:66-159: pin both executors of every reviewed service. */
module PinGithub {
  import opened Json
  import opened JsonFacts
  import opened FieldScan
  import opened ExecutorPin
  import opened CatalogText
  import opened PinPlan
  import opened PinBatch
  import opened PinRun
  import opened PinSource
  import opened PinOutcome
  import opened Utf8

  /** The reviewed tables the program was written with. */
  datatype Review = Review(repositories: map<Str, Str>, artemis: set<Str>, web: Str, releases: set<Str>,
                           deployments: set<Str>, releaseEdits: nat, deploymentEdits: nat)

  /** The executor a block names now; none when the block is not an object. */
  function Baseline(row: Value, field: Str): Option<Value>
    requires row.Object?
  {
    var block := Get(row.fields, field, Object(map[]));
    if block.Object? then Some(Get(block.fields, EXECUTOR, if field == DEPLOYMENT then AUTO else Null)) else None
  }

  // The review

  ghost predicate Selects(review: Review, row: Value) { NamedRow(row) && NameOf(row) in review.repositories }

  ghost function Selected(review: Review, rows: seq<Value>): set<nat> {
    set i: nat | i < |rows| && Selects(review, rows[i])
  }

  /** The block names this executor; by default a deployment is automatic and a release has none. */
  ghost predicate ExecutorIs(row: Value, field: Str, value: Value)
    requires row.Object?
  {
    && (field in row.fields ==> row.fields[field].Object?)
    && if EXECUTOR in BlockOf(row, field) then BlockOf(row, field)[EXECUTOR] == value
       else value == if field == DEPLOYMENT then AUTO else Null
  }

  /** What the review demands of a row that is not reviewed: it is not an enabled managed service. */
  ghost predicate Bystander(row: Value)
    requires row.Object?
  {
    (MODE in row.fields && row.fields[MODE] != MANAGED)
    || (ENABLED in BlockOf(row, DEPLOYMENT) && BlockOf(row, DEPLOYMENT)[ENABLED] == False)
  }

  /** And of a reviewed one: it is, with the reviewed repository and executors. */
  ghost predicate Default(review: Review, row: Value)
    requires row.Object? && Selects(review, row)
  {
    var name := NameOf(row);
    && Says(row, REPOSITORY, Text(review.repositories[name])) && Says(row, MODE, MANAGED)
    && ENABLED in BlockOf(row, DEPLOYMENT) && BlockOf(row, DEPLOYMENT)[ENABLED] == True
    && (if name in review.releases then ExecutorIs(row, RELEASE, GITHUB_ACTIONS)
        else if name == review.web then ExecutorIs(row, RELEASE, CLOUD_BUILD) else ExecutorIs(row, RELEASE, Null))
    && (if name in review.deployments then ExecutorIs(row, DEPLOYMENT, GITHUB_ACTIONS)
        else if name in review.artemis then ExecutorIs(row, DEPLOYMENT, CLOUD_BUILD)
        else ExecutorIs(row, DEPLOYMENT, AUTO))
  }

  ghost predicate RowReviewed(review: Review, row: Value)
    requires NamedRow(row)
  {
    && (DEPLOYMENT in row.fields ==> row.fields[DEPLOYMENT].Object?)
    && if Selects(review, row) then Default(review, row) else Bystander(row)
  }

  ghost predicate Reviewed(review: Review, rows: seq<Value>) {
    && Named(rows)
    && review.repositories.Keys <= NamesOf(rows)
    && (forall i | 0 <= i < |rows| :: RowReviewed(review, rows[i]))
    && |review.repositories.Keys - review.releases| == review.releaseEdits
    && |review.repositories.Keys - review.deployments| == review.deploymentEdits
  }

  /** The block does not name the new executor yet. */
  predicate WantsPin(row: Value, field: Str) { row.Object? && Baseline(row, field) != Some(GITHUB_ACTIONS) }

  /** The pins still missing in these rows. */
  ghost function Wanted(rows: seq<Value>, indices: set<nat>): set<Target> {
    set i, f | i in indices && f in {RELEASE, DEPLOYMENT} && i < |rows| && WantsPin(rows[i], f) :: Target(i, f)
  }

  ghost predicate GoodRow(row: Value) { GoodPin(row, RELEASE) && GoodPin(row, DEPLOYMENT) }

  lemma ReviewedGood(review: Review, row: Value)
    requires NamedRow(row) && Selects(review, row) && RowReviewed(review, row)
    ensures GoodRow(row)
  {
    hide UnitsOf;
    assert DEPLOYMENT in row.fields;
  }

  // Counting the edits

  function CountField(plan: seq<PinEdit>, field: Str): nat {
    if plan == [] then 0 else (if plan[0].target.field == field then 1 else 0) + CountField(plan[1..], field)
  }

  ghost function RowsPinned(plan: seq<PinEdit>, field: Str): set<nat> {
    set x | x in plan && x.target.field == field :: x.target.row
  }

  lemma {:induction false} CountDistinct(plan: seq<PinEdit>, field: Str)
    requires DistinctTargets(plan)
    ensures CountField(plan, field) == |RowsPinned(plan, field)|
  {
    if plan != [] {
      var p, rest := plan[0], plan[1..];
      RestDistinct(plan);
      CountDistinct(rest, field);
      assert plan == [p] + rest;
      if p.target.field == field {
        assert RowsPinned(plan, field) == RowsPinned(rest, field) + {p.target.row};
        forall x | x in rest && x.target.field == field ensures x.target.row != p.target.row {
          assert x.target == Target(x.target.row, field);
        }
      } else {
        assert RowsPinned(plan, field) == RowsPinned(rest, field);
      }
    }
  }

  lemma RestDistinct(plan: seq<PinEdit>)
    requires plan != [] && DistinctTargets(plan)
    ensures DistinctTargets(plan[1..]) && forall x | x in plan[1..] :: x.target != plan[0].target
  {
    forall x | x in plan[1..] ensures x.target != plan[0].target {
      var k :| 0 <= k < |plan| - 1 && plan[1..][k] == x;
      assert plan[k + 1] == x;
    }
  }

  ghost function WantedRows(review: Review, rows: seq<Value>, field: Str): set<nat> {
    set i: nat | i < |rows| && Selects(review, rows[i]) && WantsPin(rows[i], field)
  }

  ghost function Known(review: Review, field: Str): set<Str> {
    if field == RELEASE then review.releases else review.deployments
  }

  lemma WantsUnknown(review: Review, row: Value, field: Str)
    requires NamedRow(row) && Selects(review, row) && RowReviewed(review, row) && PinField(field)
    ensures WantsPin(row, field) <==> NameOf(row) !in Known(review, field)
  {
    hide UnitsOf;
    NamesDiffer();
    assert GITHUB_ACTIONS != CLOUD_BUILD && GITHUB_ACTIONS != AUTO by { ExecutorsDiffer(); }
  }

  lemma FirstUnit(s: string)
    requires s != "" && s[0] < 128 as char
    ensures UnitsOf(s) != [] && UnitsOf(s)[0] == s[0] as int
  {
  }

  lemma ExecutorsDiffer()
    ensures GITHUB_ACTIONS != CLOUD_BUILD && GITHUB_ACTIONS != AUTO
  {
    hide UnitsOf;
    FirstUnit("github_actions");
    FirstUnit("cloud_build");
    FirstUnit("auto");
  }

  /** The number of edits planned for a block is decided by the reviewed tables. */
  lemma EditCount(review: Review, text: string, rows: seq<Value>, plan: seq<PinEdit>, field: Str)
    requires Named(rows) && review.repositories.Keys <= NamesOf(rows) && PinField(field)
    requires forall i | 0 <= i < |rows| :: RowReviewed(review, rows[i])
    requires Planned(text, rows, Selected(review, rows), Wanted(rows, Selected(review, rows)), plan)
    ensures CountField(plan, field) == |review.repositories.Keys - Known(review, field)|
  {
    hide RowReviewed, NamedRow, NameOf, PendingOne, GoodRow, Known, WantsPin;
    CountDistinct(plan, field);
    PinnedRowsAre(review, text, rows, plan, field);
    NamesWanted(review, rows, field);
    AsManyNames(rows, WantedRows(review, rows, field));
  }

  lemma PinnedRowsAre(review: Review, text: string, rows: seq<Value>, plan: seq<PinEdit>, field: Str)
    requires Planned(text, rows, Selected(review, rows), Wanted(rows, Selected(review, rows)), plan) && PinField(field)
    ensures RowsPinned(plan, field) == WantedRows(review, rows, field)
  {
    hide Planned, Selects, WantsPin, Wanted;
    var s := WantedRows(review, rows, field);
    forall i: nat ensures i in RowsPinned(plan, field) <==> i in s {
      RowWanted(review, rows, field, i);
      TargetPlanned(text, rows, Selected(review, rows), Wanted(rows, Selected(review, rows)), plan, Target(i, field));
      PinnedTarget(plan, field, i);
    }
  }

  lemma RowWanted(review: Review, rows: seq<Value>, field: Str, i: nat)
    requires PinField(field)
    ensures i in WantedRows(review, rows, field) <==> Target(i, field) in Wanted(rows, Selected(review, rows))
  {
    hide Selects, WantsPin, UnitsOf;
  }

  lemma TargetPlanned(text: string, rows: seq<Value>, indices: set<nat>, wanted: set<Target>, plan: seq<PinEdit>,
                      t: Target)
    requires Planned(text, rows, indices, wanted, plan)
    ensures t in TargetsOf(plan) <==> t in wanted
  {
    hide PendingOne, GoodTarget;
  }

  lemma PinnedTarget(plan: seq<PinEdit>, field: Str, i: nat)
    ensures i in RowsPinned(plan, field) <==> Target(i, field) in TargetsOf(plan)
  {
    if i in RowsPinned(plan, field) {
      var x :| x in plan && x.target.field == field && x.target.row == i;
      assert x.target == Target(i, field);
    }
  }

  lemma NamesWanted(review: Review, rows: seq<Value>, field: Str)
    requires Named(rows) && review.repositories.Keys <= NamesOf(rows) && PinField(field)
    requires forall i | 0 <= i < |rows| :: RowReviewed(review, rows[i])
    ensures forall i | i in WantedRows(review, rows, field) :: i < |rows| && NamedRow(rows[i])
    ensures NamesAt(rows, WantedRows(review, rows, field)) == review.repositories.Keys - Known(review, field)
  {
    hide RowReviewed, NameOf, Known, WantsPin, NamesOf, Selects, NamedRow;
    NamedRows(rows);
    var s := WantedRows(review, rows, field);
    forall i | i in s ensures NameOf(rows[i]) in review.repositories.Keys - Known(review, field) {
      SelectedName(review, rows[i]);
      WantsUnknown(review, rows[i], field);
    }
    forall n | n in review.repositories.Keys - Known(review, field) ensures n in NamesAt(rows, s) {
      var i := RowNamed(rows, n);
      SelectedBy(review, rows[i]);
      WantsUnknown(review, rows[i], field);
      assert i in s;
    }
  }

  lemma SelectedName(review: Review, row: Value)
    requires Selects(review, row)
    ensures NamedRow(row) && NameOf(row) in review.repositories
  {
    hide NameOf, NamedRow;
  }

  lemma SelectedBy(review: Review, row: Value)
    requires NamedRow(row) && NameOf(row) in review.repositories
    ensures Selects(review, row)
  {
    hide NameOf, NamedRow;
  }

  // The run

  ghost function AlsoWanted(row: Value, wanted: set<Target>, t: Target): set<Target> {
    if WantsPin(row, t.field) then wanted + {t} else wanted
  }

  lemma WantedGrows(rows: seq<Value>, done: set<nat>, i: nat)
    requires i < |rows| && i !in done
    ensures Wanted(rows, done + {i}) == AlsoWanted(rows[i], AlsoWanted(rows[i], Wanted(rows, done), Target(i, RELEASE)),
                                                   Target(i, DEPLOYMENT))
    ensures Target(i, RELEASE) !in Wanted(rows, done) && Target(i, DEPLOYMENT) !in Wanted(rows, done)
    ensures Target(i, RELEASE) != Target(i, DEPLOYMENT)
  {
    hide WantsPin, UnitsOf;
    NamesDiffer();
    var both := AlsoWanted(rows[i], AlsoWanted(rows[i], Wanted(rows, done), Target(i, RELEASE)), Target(i, DEPLOYMENT));
    forall t ensures t in Wanted(rows, done + {i}) <==> t in both {}
  }

  /** The planning loops, over the selected rows in any order. */
  method PlanPins(text: string, ghost root: map<Str, Value>, rows: seq<Value>, spans: seq<Slot>, indices: set<nat>)
    returns (plan: seq<PinEdit>, expected: seq<Value>)
    requires IsCatalog(text, root, rows, spans) && forall i | i in indices :: i < |rows| && GoodRow(rows[i])
    ensures Planned(text, rows, indices, Wanted(rows, indices), plan) && Pinned(rows, Wanted(rows, indices), expected)
  {
    hide IsCatalog, Planned, Pinned, GoodRow, Wanted;
    plan, expected := [], rows;
    NothingPlanned(text, rows, indices);
    NothingWanted(rows);
    var todo, done := indices, {};
    while todo != {}
      invariant todo <= indices && done == indices - todo
      invariant Planned(text, rows, indices, Wanted(rows, done), plan) && Pinned(rows, Wanted(rows, done), expected)
      decreases todo
    {
      var i :| i in todo;
      plan, expected := PlanRow(text, root, rows, spans, indices, i, plan, expected, done);
      todo, done := todo - {i}, done + {i};
    }
    assert done == indices;
  }

  method PlanRow(text: string, ghost root: map<Str, Value>, rows: seq<Value>, spans: seq<Slot>,
                 ghost indices: set<nat>, i: nat, plan: seq<PinEdit>, expected: seq<Value>, ghost done: set<nat>)
    returns (plan': seq<PinEdit>, expected': seq<Value>)
    requires IsCatalog(text, root, rows, spans) && i in indices && i < |rows| && GoodRow(rows[i]) && i !in done
    requires Planned(text, rows, indices, Wanted(rows, done), plan) && Pinned(rows, Wanted(rows, done), expected)
    ensures Planned(text, rows, indices, Wanted(rows, done + {i}), plan')
            && Pinned(rows, Wanted(rows, done + {i}), expected')
  {
    hide IsCatalog, Planned, Pinned, GoodRow, GoodTarget, Wanted, WantsPin;
    plan', expected' := plan, expected;
    WantedGrows(rows, done, i);
    BothGood(rows, i);
    ghost var wanted := Wanted(rows, done);
    if WantsPin(rows[i], RELEASE) {
      plan', expected' := PlanOne(text, root, rows, spans, indices, Target(i, RELEASE), plan', expected', wanted);
      wanted := wanted + {Target(i, RELEASE)};
    }
    if WantsPin(rows[i], DEPLOYMENT) {
      plan', expected' := PlanOne(text, root, rows, spans, indices, Target(i, DEPLOYMENT), plan', expected', wanted);
    }
  }

  lemma BothGood(rows: seq<Value>, i: nat)
    requires i < |rows| && GoodRow(rows[i])
    ensures GoodTarget(rows, Target(i, RELEASE)) && GoodTarget(rows, Target(i, DEPLOYMENT))
  {
    hide GoodPin, UnitsOf;
  }

  lemma NothingWanted(rows: seq<Value>)
    ensures Wanted(rows, {}) == {}
  {
  }

  lemma SelectedGood(review: Review, row: Value)
    requires NamedRow(row) && RowReviewed(review, row) && Selects(review, row)
    ensures GoodRow(row)
  {
    hide RowReviewed;
    ReviewedGood(review, row);
  }

  lemma KnownIs(review: Review)
    ensures Known(review, RELEASE) == review.releases && Known(review, DEPLOYMENT) == review.deployments
  {
    hide UnitsOf;
    NamesDiffer();
  }

  // The guards

  lemma BaselineIs(row: Value, field: Str, value: Value)
    requires row.Object?
    ensures Baseline(row, field) == Some(value) <==> ExecutorIs(row, field, value)
  {
    hide UnitsOf;
  }

  /** The row loop's guards for a reviewed service. */
  method CheckDefault(review: Review, row: Value, name: Str, deployment: map<Str, Value>) returns (ok: bool)
    requires NamedRow(row) && Selects(review, row) && name == NameOf(row) && deployment == BlockOf(row, DEPLOYMENT)
    ensures ok == Default(review, row)
  {
    hide UnitsOf, NameOf, NamedRow, Baseline, ExecutorIs, BlockOf;
    NameRead(row);
    if Get(row.fields, REPOSITORY, Null) != Text(review.repositories[name]) { return false; }
    if Get(row.fields, MODE, Null) != MANAGED || Get(deployment, ENABLED, Null) != True { return false; }
    var release := if name in review.releases then GITHUB_ACTIONS else if name == review.web then CLOUD_BUILD else Null;
    var deploy := if name in review.deployments then GITHUB_ACTIONS
                  else if name in review.artemis then CLOUD_BUILD else AUTO;
    BaselineIs(row, RELEASE, release);
    BaselineIs(row, DEPLOYMENT, deploy);
    ok := Baseline(row, RELEASE) == Some(release) && Baseline(row, DEPLOYMENT) == Some(deploy);
  }

  method CheckRow(review: Review, row: Value, selected: bool) returns (ok: bool)
    requires NamedRow(row) && (selected <==> Selects(review, row))
    ensures ok == RowReviewed(review, row)
  {
    hide UnitsOf, NameOf, Default;
    var block := Get(row.fields, DEPLOYMENT, Object(map[]));
    if !block.Object? { return false; }
    if !selected {
      return !(Get(row.fields, MODE, MANAGED) == MANAGED && Get(block.fields, ENABLED, True) != False);
    }
    NameRead(row);
    ok := CheckDefault(review, row, Get(row.fields, SERVICE_NAME, Null).units, block.fields);
  }

  /** The guards on the rows, up to the planning, and which rows they select. */
  method CheckRows(review: Review, rows: seq<Value>) returns (ok: bool, indices: set<nat>)
    ensures ok <==> Named(rows) && review.repositories.Keys <= NamesOf(rows)
                    && forall i | 0 <= i < |rows| :: RowReviewed(review, rows[i])
    ensures ok ==> indices == Selected(review, rows)
  {
    hide RowReviewed, Named, NameOf, NamedRow, NamesOf;
    indices := {};
    ok := CheckNames(rows);
    if !ok { return; }
    NamedRows(rows);
    var found;
    indices, found := SelectRows(rows, review.repositories.Keys);
    NamesFound(rows, review.repositories.Keys, found);
    if found != review.repositories.Keys { return false, indices; }
    for i := 0 to |rows|
      invariant forall k | 0 <= k < i :: RowReviewed(review, rows[k])
    {
      ok := CheckRow(review, rows[i], i in indices);
      if !ok { return; }
    }
    ok := true;
  }

  /** Planning and counting: the count the program insists on is what the reviewed tables say. */
  method PlanReviewed(review: Review, text: string, ghost root: map<Str, Value>, rows: seq<Value>, spans: seq<Slot>,
                      indices: set<nat>)
    returns (ok: bool, plan: seq<PinEdit>, expected: seq<Value>)
    requires IsCatalog(text, root, rows, spans)
    requires Named(rows) && review.repositories.Keys <= NamesOf(rows)
    requires (forall i | 0 <= i < |rows| :: RowReviewed(review, rows[i])) && indices == Selected(review, rows)
    ensures ok <==> |review.repositories.Keys - review.releases| == review.releaseEdits
                    && |review.repositories.Keys - review.deployments| == review.deploymentEdits
    ensures Planned(text, rows, indices, Wanted(rows, indices), plan) && Pinned(rows, Wanted(rows, indices), expected)
  {
    hide RowReviewed, NameOf, NamedRow, NamesOf, Planned, Pinned, IsCatalog, Wanted, CountField, GoodRow, Selects;
    NamedRows(rows);
    forall i | i in indices ensures i < |rows| && GoodRow(rows[i]) { SelectedGood(review, rows[i]); }
    hide Named;
    plan, expected := PlanPins(text, root, rows, spans, indices);
    EditCount(review, text, rows, plan, RELEASE);
    EditCount(review, text, rows, plan, DEPLOYMENT);
    KnownIs(review);
    ok := CountField(plan, RELEASE) == review.releaseEdits && CountField(plan, DEPLOYMENT) == review.deploymentEdits;
  }

  /** What the pin does to the rows: both executors of every reviewed service are the new one, and nothing else
      changes. */
  ghost predicate DefaultsPinned(names: set<Str>, before: seq<Value>, after: seq<Value>) {
    && |after| == |before|
    && forall i | 0 <= i < |before| ::
         && NamedRow(before[i])
         && after[i] == if before[i].fields[SERVICE_NAME].units in names then BothNew(before[i]) else before[i]
  }

  /** There is exactly one edit for each block of a reviewed service that does not name the new executor. */
  ghost predicate MissingEdited(names: set<Str>, rows: seq<Value>, edits: seq<PinEdit>) {
    && (forall j, k | 0 <= j < k < |edits| :: edits[j].target != edits[k].target)
    && forall i: nat, f ::
         (exists k :: 0 <= k < |edits| && edits[k].target == Target(i, f))
         <==> (f == RELEASE || f == DEPLOYMENT) && i < |rows| && NamedRow(rows[i])
              && rows[i].fields[SERVICE_NAME].units in names
              && !(EXECUTOR in BlockOf(rows[i], f) && BlockOf(rows[i], f)[EXECUTOR] == GITHUB_ACTIONS)
  }

  lemma FieldsWanted(rows: seq<Value>, indices: set<nat>, i: nat)
    requires i < |rows|
    ensures FieldsAt(Wanted(rows, indices), i)
         == if i in indices then set f | f in {RELEASE, DEPLOYMENT} && WantsPin(rows[i], f) else {}
  {
    hide WantsPin, UnitsOf;
    var s := FieldsAt(Wanted(rows, indices), i);
    forall f | i in indices && f in {RELEASE, DEPLOYMENT} && WantsPin(rows[i], f) ensures f in s {
      assert Target(i, f) in Wanted(rows, indices);
    }
  }

  lemma WantsIs(row: Value, field: Str)
    requires row.Object? && (field in row.fields ==> row.fields[field].Object?) && PinField(field)
    ensures WantsPin(row, field)
       <==> !(EXECUTOR in BlockOf(row, field) && BlockOf(row, field)[EXECUTOR] == GITHUB_ACTIONS)
  {
    hide UnitsOf;
    ExecutorsDiffer();
  }

  /** Pinning what is missing leaves both executors the new one. */
  lemma BothPinned(row: Value, wanted: set<Str>)
    requires GoodRow(row) && wanted == set f | f in {RELEASE, DEPLOYMENT} && WantsPin(row, f)
    ensures PinnedRow(row, wanted) == BothNew(row)
  {
    hide UnitsOf, WantsPin;
    NamesDiffer();
    WantsIs(row, RELEASE);
    WantsIs(row, DEPLOYMENT);
    var m := row.fields;
    var release := Object(BlockOf(row, RELEASE)[EXECUTOR := GITHUB_ACTIONS]);
    var deployment := Object(BlockOf(row, DEPLOYMENT)[EXECUTOR := GITHUB_ACTIONS]);
    if RELEASE !in wanted { assert BlockOf(row, RELEASE)[EXECUTOR := GITHUB_ACTIONS] == BlockOf(row, RELEASE); }
    if DEPLOYMENT !in wanted {
      assert BlockOf(row, DEPLOYMENT)[EXECUTOR := GITHUB_ACTIONS] == BlockOf(row, DEPLOYMENT);
    }
    assert PinnedFields(m, wanted) == m[RELEASE := release][DEPLOYMENT := deployment];
  }

  lemma DefaultsArePinned(review: Review, rows: seq<Value>, after: seq<Value>)
    requires Reviewed(review, rows)
    requires Pinned(rows, Wanted(rows, Selected(review, rows)), after)
    ensures DefaultsPinned(review.repositories.Keys, rows, after)
  {
    hide UnitsOf, PinnedRow, FieldsAt, Wanted, NamesOf, RowReviewed, WantsPin, GoodRow, BothNew;
    forall i | 0 <= i < |rows|
      ensures NamedRow(rows[i])
      ensures after[i] == if NameOf(rows[i]) in review.repositories then BothNew(rows[i]) else rows[i]
    {
      FieldsWanted(rows, Selected(review, rows), i);
      if NameOf(rows[i]) in review.repositories {
        SelectedGood(review, rows[i]);
        BothPinned(rows[i], FieldsAt(Wanted(rows, Selected(review, rows)), i));
      } else {
        NothingPinned(rows[i]);
      }
    }
  }

  lemma MissingAreEdited(review: Review, rows: seq<Value>, edits: seq<PinEdit>)
    requires Reviewed(review, rows)
    requires TargetsOf(edits) == Wanted(rows, Selected(review, rows)) && DistinctTargets(edits)
    ensures MissingEdited(review.repositories.Keys, rows, edits)
  {
    hide UnitsOf, NamesOf, RowReviewed, WantsPin, GoodRow, BlockOf, TargetsOf, NameOf;
    NamedRows(rows);
    forall i: nat, f
      ensures (exists k :: 0 <= k < |edits| && edits[k].target == Target(i, f))
         <==> (f == RELEASE || f == DEPLOYMENT) && i < |rows| && NamedRow(rows[i])
              && rows[i].fields[SERVICE_NAME].units in review.repositories.Keys
              && !(EXECUTOR in BlockOf(rows[i], f) && BlockOf(rows[i], f)[EXECUTOR] == GITHUB_ACTIONS)
    {
      EditedAt(edits, Target(i, f));
      if i < |rows| { NameRead(rows[i]); }
      if i < |rows| && Selects(review, rows[i]) && (f == RELEASE || f == DEPLOYMENT) {
        SelectedGood(review, rows[i]);
        GoodBlocks(rows[i], f);
        WantsIs(rows[i], f);
      }
    }
  }

  lemma GoodBlocks(row: Value, f: Str)
    requires GoodRow(row) && (f == RELEASE || f == DEPLOYMENT)
    ensures row.Object? && (f in row.fields ==> row.fields[f].Object?)
  {
    hide UnitsOf;
  }

  lemma EditedAt(edits: seq<PinEdit>, t: Target)
    ensures (exists k :: 0 <= k < |edits| && edits[k].target == t) <==> t in TargetsOf(edits)
  {
    if t in TargetsOf(edits) {
      var x :| x in edits && x.target == t;
      var k :| 0 <= k < |edits| && edits[k] == x;
    }
  }

  /** prepare: a refusal exactly when the source is not the reviewed one; otherwise the finished batch. The candidate
      has the new executors in the rows of the reviewed services and is the source everywhere else; one edit is reported
      for each executor that was missing. The checks after the edits never fail. */
  method Prepare(raw: seq<Byte>, digest: seq<Byte> -> Str, sha: Str, review: Review)
    returns (r: Outcome, ghost after: string)
    ensures r.Refused? || r.Prepared?
    ensures r.Prepared? <==>
              |raw| <= SIZE_LIMIT && digest(raw) == sha && Catalog(raw) && Reviewed(review, ServicesOf(raw))
    ensures r.Prepared? ==>
              && OnlyRows(raw, r.candidate)
              && DefaultsPinned(review.repositories.Keys, ServicesOf(raw), ServicesOf(r.candidate))
              && MissingEdited(review.repositories.Keys, ServicesOf(raw), r.edits)
    ensures r.Prepared? ==>
              var rows := ServicesOf(raw);
              var indices := Selected(review, rows);
              PinnedExactly(raw, TextOf(raw), RootOf(raw), rows, indices, Wanted(rows, indices),
                            r.candidate, r.edits, after)
  {
    hide Catalog, TextOf, RootOf, RowReviewed, Named, PinnedExactly, Planned, Pinned, IsCatalog, Rooted, Encode,
         Wanted, EntrySpans, Selects, NamesOf, DefaultsPinned, MissingEdited, OnlyRows, TargetsOf, DistinctTargets;
    after := "";
    if |raw| > SIZE_LIMIT { return Refused, after; }
    if digest(raw) != sha { return Refused, after; }
    var ok, text, root, rows := ReadCatalog(raw);
    if !ok { return Refused, after; }
    var indices;
    ok, indices := CheckRows(review, rows);
    if !ok { return Refused, after; }
    var spans := ReadEntrySpans(text, root, rows);
    var plan, expected;
    ok, plan, expected := PlanReviewed(review, text, root, rows, spans, indices);
    if !ok { return Refused, after; }
    r, after := ApplyAndCheck(raw, text, root, rows, spans, indices, plan, expected, Wanted(rows, indices));
    CandidateReads(raw, rows, indices, Wanted(rows, indices), r.candidate, r.edits, after);
    DefaultsArePinned(review, rows, ServicesOf(r.candidate));
    MissingAreEdited(review, rows, r.edits);
  }
}
