/** prepare of scripts/pin_artemis_release_catalog.py:58-157: pin the release executor of one repository's services. */
module PinArtemis {
  import opened Json
  import opened JsonFacts
  import opened FieldScan
  import opened ExecutorPin
  import opened CatalogText
  import opened PinPlan
  import opened PinBatch
  import opened PinRun
  import opened PinSource
  import opened PinOutcome
  import opened Utf8

  const QUALITY: Str := UnitsOf("quality")

  /** The reviewed services, their repository, and the comparison of repositories that ignores case. */
  datatype Review = Review(services: set<Str>, repository: Str, shared: Value -> bool)

  // The review

  ghost function Selected(review: Review, rows: seq<Value>): set<nat>
    requires Named(rows)
  {
    set i: nat | i < |rows| && NameOf(rows[i]) in review.services
  }

  /** A block of the row is an object with this member. */
  ghost predicate BlockSays(row: Value, block: Str, key: Str, value: Value) {
    row.Object? && block in row.fields && Says(row.fields[block], key, value)
  }

  /** What the review demands of one row: another service is not of this repository, and a reviewed one is, managed,
      with its quality gate on and its releases still with Cloud Build. */
  ghost predicate RowReviewed(review: Review, row: Value)
    requires NamedRow(row)
  {
    if NameOf(row) !in review.services
    then !review.shared(if REPOSITORY in row.fields then row.fields[REPOSITORY] else Text([]))
    else
      && Says(row, REPOSITORY, Text(review.repository)) && Says(row, MODE, MANAGED)
      && BlockSays(row, QUALITY, ENABLED, True) && BlockSays(row, RELEASE, EXECUTOR, CLOUD_BUILD)
  }

  ghost predicate Reviewed(review: Review, rows: seq<Value>) {
    && Named(rows)
    && review.services <= NamesOf(rows)
    && (forall i | 0 <= i < |rows| :: RowReviewed(review, rows[i]))
  }

  /** The release pin of every selected row. */
  ghost function Wanted(indices: set<nat>): set<Target> { set i | i in indices :: Target(i, RELEASE) }

  /** A selected row has a release block; nothing is asked of its deployment block. */
  lemma SelectedGood(review: Review, row: Value)
    requires NamedRow(row) && NameOf(row) in review.services && RowReviewed(review, row)
    ensures GoodPin(row, RELEASE)
  {
    hide UnitsOf;
  }

  // The guards

  method CheckRow(review: Review, row: Value, selected: bool) returns (ok: bool)
    requires NamedRow(row) && (selected <==> NameOf(row) in review.services)
    ensures ok == RowReviewed(review, row)
  {
    hide UnitsOf, NameOf;
    if !selected { return !review.shared(Get(row.fields, REPOSITORY, Text([]))); }
    if Get(row.fields, REPOSITORY, Null) != Text(review.repository) { return false; }
    if Get(row.fields, MODE, Null) != MANAGED { return false; }
    var quality := Get(row.fields, QUALITY, Null);
    if !quality.Object? || Get(quality.fields, ENABLED, Null) != True { return false; }
    var release := Get(row.fields, RELEASE, Null);
    if !release.Object? || Get(release.fields, EXECUTOR, Null) != CLOUD_BUILD { return false; }
    return true;
  }

  /** The guards on the rows, and which rows they select. */
  method CheckRows(review: Review, rows: seq<Value>) returns (ok: bool, indices: set<nat>)
    ensures ok == Reviewed(review, rows)
    ensures ok ==> indices == Selected(review, rows)
  {
    hide RowReviewed, Named, NameOf, NamedRow;
    indices := {};
    ok := CheckNames(rows);
    if !ok { return; }
    NamedRows(rows);
    var found;
    indices, found := SelectRows(rows, review.services);
    NamesFound(rows, review.services, found);
    if found != review.services { return false, indices; }
    for i := 0 to |rows|
      invariant forall k | 0 <= k < i :: RowReviewed(review, rows[k])
    {
      ok := CheckRow(review, rows[i], i in indices);
      if !ok { return; }
    }
    ok := true;
  }

  // The run

  /** The planning loop, over the selected rows in any order. */
  method PlanPins(text: string, ghost root: map<Str, Value>, rows: seq<Value>, spans: seq<Slot>, indices: set<nat>)
    returns (plan: seq<PinEdit>, expected: seq<Value>)
    requires IsCatalog(text, root, rows, spans) && forall i | i in indices :: i < |rows| && GoodPin(rows[i], RELEASE)
    ensures Planned(text, rows, indices, Wanted(indices), plan) && Pinned(rows, Wanted(indices), expected)
  {
    hide IsCatalog, Planned, Pinned, GoodPin;
    plan, expected := [], rows;
    NothingPlanned(text, rows, indices);
    var todo, done := indices, {};
    assert Wanted(done) == {};
    while todo != {}
      invariant todo <= indices && done == indices - todo
      invariant Planned(text, rows, indices, Wanted(done), plan) && Pinned(rows, Wanted(done), expected)
      decreases todo
    {
      var i :| i in todo;
      plan, expected := PlanOne(text, root, rows, spans, indices, Target(i, RELEASE), plan, expected, Wanted(done));
      assert Wanted(done + {i}) == Wanted(done) + {Target(i, RELEASE)};
      todo, done := todo - {i}, done + {i};
    }
    assert done == indices;
  }

  /** What the pin does to the rows: those of the services get the new release executor, and nothing else changes. */
  ghost predicate ReleasesPinned(services: set<Str>, before: seq<Value>, after: seq<Value>) {
    && |after| == |before|
    && forall i | 0 <= i < |before| ::
         && NamedRow(before[i])
         && if before[i].fields[SERVICE_NAME].units in services then
              && RELEASE in before[i].fields && before[i].fields[RELEASE].Object?
              && var release := before[i].fields[RELEASE].fields[EXECUTOR := GITHUB_ACTIONS];
                 after[i] == Object(before[i].fields[RELEASE := Object(release)])
            else after[i] == before[i]
  }

  /** There is one edit for each of the services, and no other. */
  ghost predicate OneEditEach(services: set<Str>, rows: seq<Value>, edits: seq<PinEdit>) {
    && |edits| == |services|
    && forall n | n in services ::
         exists k :: 0 <= k < |edits| && edits[k].target.field == RELEASE && edits[k].target.row < |rows|
                     && Says(rows[edits[k].target.row], SERVICE_NAME, Text(n))
  }

  lemma RowPinned(rows: seq<Value>, indices: set<nat>, i: nat)
    requires i < |rows|
    ensures i in indices ==> FieldsAt(Wanted(indices), i) == {RELEASE}
    ensures i !in indices ==> FieldsAt(Wanted(indices), i) == {}
  {
    if i in indices { assert Target(i, RELEASE) in Wanted(indices); }
  }

  lemma PinnedRelease(row: Value)
    requires row.Object? && RELEASE in row.fields && row.fields[RELEASE].Object?
    ensures PinnedRow(row, {RELEASE})
         == Object(row.fields[RELEASE := Object(row.fields[RELEASE].fields[EXECUTOR := GITHUB_ACTIONS])])
  {
    hide UnitsOf;
    var pinned := PinnedFields(row.fields, {RELEASE});
    assert pinned == row.fields[RELEASE := Object(row.fields[RELEASE].fields[EXECUTOR := GITHUB_ACTIONS])];
  }

  lemma ReleasesArePinned(review: Review, rows: seq<Value>, after: seq<Value>)
    requires Reviewed(review, rows) && Pinned(rows, Wanted(Selected(review, rows)), after)
    ensures ReleasesPinned(review.services, rows, after)
  {
    hide UnitsOf, PinnedRow, FieldsAt, Wanted, NamesOf;
    forall i | 0 <= i < |rows|
      ensures NamedRow(rows[i]) && after[i] == PinnedRow(rows[i], FieldsAt(Wanted(Selected(review, rows)), i))
      ensures if NameOf(rows[i]) in review.services then
                && RELEASE in rows[i].fields && rows[i].fields[RELEASE].Object?
                && var release := rows[i].fields[RELEASE].fields[EXECUTOR := GITHUB_ACTIONS];
                   after[i] == Object(rows[i].fields[RELEASE := Object(release)])
              else after[i] == rows[i]
    {
      RowPinned(rows, Selected(review, rows), i);
      if NameOf(rows[i]) in review.services { PinnedRelease(rows[i]); } else { NothingPinned(rows[i]); }
    }
  }

  lemma OneForEach(review: Review, rows: seq<Value>, edits: seq<PinEdit>)
    requires Named(rows) && review.services <= NamesOf(rows)
    requires TargetsOf(edits) == Wanted(Selected(review, rows)) && DistinctTargets(edits)
    ensures OneEditEach(review.services, rows, edits)
  {
    hide UnitsOf, Named, DistinctTargets, NamedRow, NameOf;
    NamedRows(rows);
    var indices := Selected(review, rows);
    AsManyTargets(edits);
    AsManyWanted(indices);
    AsManyNames(rows, indices);
    forall n ensures n in NamesAt(rows, indices) <==> n in review.services {
      if n in review.services { var i := RowNamed(rows, n); assert i in indices; }
    }
    assert NamesAt(rows, indices) == review.services;
    forall n | n in review.services
      ensures exists k :: 0 <= k < |edits| && edits[k].target.field == RELEASE && edits[k].target.row < |rows|
                          && Says(rows[edits[k].target.row], SERVICE_NAME, Text(n))
    {
      var i := RowNamed(rows, n);
      NameSaid(rows[i]);
      assert Target(i, RELEASE) in TargetsOf(edits);
      var x :| x in edits && x.target == Target(i, RELEASE);
      var k :| 0 <= k < |edits| && edits[k] == x;
    }
  }

  lemma {:induction false} AsManyWanted(indices: set<nat>)
    ensures |Wanted(indices)| == |indices|
    decreases indices
  {
    if i :| i in indices {
      AsManyWanted(indices - {i});
      assert Wanted(indices) == Wanted(indices - {i}) + {Target(i, RELEASE)};
    }
  }

  /** prepare: a refusal exactly when the source is not the reviewed one; otherwise the finished batch. The candidate
      has the new release executor in the rows of the services and is the source everywhere else; one edit is reported
      for each service. The checks after the edits never fail. */
  method Prepare(raw: seq<Byte>, digest: seq<Byte> -> Str, sha: Str, review: Review)
    returns (r: Outcome, ghost after: string)
    ensures r.Refused? || r.Prepared?
    ensures r.Prepared? <==>
              |raw| <= SIZE_LIMIT && digest(raw) == sha && Catalog(raw) && Reviewed(review, ServicesOf(raw))
    ensures r.Prepared? ==>
              && OnlyRows(raw, r.candidate)
              && ReleasesPinned(review.services, ServicesOf(raw), ServicesOf(r.candidate))
              && OneEditEach(review.services, ServicesOf(raw), r.edits)
    ensures r.Prepared? ==>
              var rows := ServicesOf(raw);
              var indices := Selected(review, rows);
              PinnedExactly(raw, TextOf(raw), RootOf(raw), rows, indices, Wanted(indices), r.candidate, r.edits, after)
  {
    hide Catalog, TextOf, RootOf, RowReviewed, Named, PinnedExactly, Planned, Pinned, IsCatalog, Rooted, Encode,
         Wanted, EntrySpans, NamesOf, NameOf, NamedRow, GoodPin, ReleasesPinned, OneEditEach, OnlyRows, TargetsOf,
         DistinctTargets;
    after := "";
    if |raw| > SIZE_LIMIT { return Refused, after; }
    if digest(raw) != sha { return Refused, after; }
    var ok, text, root, rows := ReadCatalog(raw);
    if !ok { return Refused, after; }
    var indices;
    ok, indices := CheckRows(review, rows);
    if !ok { return Refused, after; }
    NamedRows(rows);
    forall i | i in indices ensures i < |rows| && GoodPin(rows[i], RELEASE) { SelectedGood(review, rows[i]); }
    var spans := ReadEntrySpans(text, root, rows);
    var plan, expected := PlanPins(text, root, rows, spans, indices);
    r, after := ApplyAndCheck(raw, text, root, rows, spans, indices, plan, expected, Wanted(indices));
    CandidateReads(raw, rows, indices, Wanted(indices), r.candidate, r.edits, after);
    ReleasesArePinned(review, rows, ServicesOf(r.candidate));
    OneForEach(review, rows, r.edits);
  }
}
