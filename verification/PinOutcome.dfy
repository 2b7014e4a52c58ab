/** What a finished batch of pins means for whoever reads the candidate: its rows, and the edits that were reported. */
module PinOutcome {
  import opened Json
  import opened FieldScan
  import opened ExecutorPin
  import opened CatalogText
  import opened PinPlan
  import opened PinBatch
  import opened PinRun
  import opened PinSource
  import opened Utf8

  /** The row has this member. */
  ghost predicate Says(row: Value, key: Str, value: Value) {
    row.Object? && key in row.fields && row.fields[key] == value
  }

  /** A missing block counts as an empty one. */
  ghost function BlockOf(row: Value, field: Str): map<Str, Value>
    requires row.Object?
  {
    if field in row.fields && row.fields[field].Object? then row.fields[field].fields else map[]
  }

  /** The row with both executors the new one. */
  ghost function BothNew(row: Value): Value
    requires row.Object?
  {
    var release := Object(BlockOf(row, RELEASE)[EXECUTOR := GITHUB_ACTIONS]);
    var deployment := Object(BlockOf(row, DEPLOYMENT)[EXECUTOR := GITHUB_ACTIONS]);
    Object(row.fields[RELEASE := release][DEPLOYMENT := deployment])
  }

  /** The candidate is the source catalog with other rows: nothing beside the services changes. */
  ghost predicate OnlyRows(raw: seq<Byte>, candidate: seq<Byte>) {
    && Catalog(raw) && Catalog(candidate)
    && RootOf(candidate) == RootOf(raw)[SERVICES := Array(ServicesOf(candidate))]
  }

  lemma CandidateReads(raw: seq<Byte>, rows: seq<Value>, indices: set<nat>, wanted: set<Target>,
                       candidate: seq<Byte>, edits: seq<PinEdit>, after: string)
    requires Catalog(raw) && rows == ServicesOf(raw)
    requires PinnedExactly(raw, TextOf(raw), RootOf(raw), rows, indices, wanted, candidate, edits, after)
    ensures OnlyRows(raw, candidate) && Catalog(candidate) && Pinned(rows, wanted, ServicesOf(candidate))
    ensures TargetsOf(edits) == wanted && DistinctTargets(edits)
  {
    hide Encode, Pinned, EntrySpans, Outside, Apart, ReplayAll, Simultaneous, Pending, RowsOf, Utf8.Decode, Json.Decode,
         UnitsOf, TargetsOf, DistinctTargets;
    DecodeEncode(after);
  }

  lemma OneMoreTarget(edits: seq<PinEdit>)
    requires edits != [] && DistinctTargets(edits)
    ensures DistinctTargets(edits[1..]) && TargetsOf(edits) == TargetsOf(edits[1..]) + {edits[0].target}
    ensures edits[0].target !in TargetsOf(edits[1..])
  {
    var x, rest := edits[0], edits[1..];
    assert edits == [x] + rest;
    forall y | y in rest ensures y.target != x.target {
      var k :| 0 <= k < |rest| && rest[k] == y;
      assert edits[k + 1] == y;
    }
  }

  lemma {:induction false} AsManyTargets(edits: seq<PinEdit>)
    requires DistinctTargets(edits)
    ensures |TargetsOf(edits)| == |edits|
  {
    hide DistinctTargets;
    if edits != [] {
      var x, rest := edits[0], edits[1..];
      OneMoreTarget(edits);
      AsManyTargets(rest);
    }
  }

  ghost function NamesAt(rows: seq<Value>, s: set<nat>): set<Str>
    requires forall i | i in s :: i < |rows| && NamedRow(rows[i])
  {
    set i | i in s :: NameOf(rows[i])
  }

  lemma {:induction false} AsManyNames(rows: seq<Value>, s: set<nat>)
    requires Named(rows) && forall i | i in s :: i < |rows| && NamedRow(rows[i])
    ensures |NamesAt(rows, s)| == |s|
    decreases s
  {
    hide UnitsOf;
    if s != {} {
      var i :| i in s;
      AsManyNames(rows, s - {i});
      assert NamesAt(rows, s) == NamesAt(rows, s - {i}) + {NameOf(rows[i])};
      assert NameOf(rows[i]) !in NamesAt(rows, s - {i});
    }
  }

  lemma NameSaid(row: Value)
    requires NamedRow(row)
    ensures Says(row, SERVICE_NAME, Text(NameOf(row)))
  {
  }

  lemma NothingPinned(row: Value)
    ensures PinnedRow(row, {}) == row
  {
  }

  /** The names a loop over the rows found are all of them exactly when each belongs to a row. */
  lemma NamesFound(rows: seq<Value>, names: set<Str>, found: set<Str>)
    requires forall i | 0 <= i < |rows| :: NamedRow(rows[i])
    requires forall n :: n in found <==> n in names && exists i :: 0 <= i < |rows| && NameOf(rows[i]) == n
    ensures found == names <==> names <= NamesOf(rows)
  {
    hide NameOf, NamedRow;
    forall n ensures n in NamesOf(rows) <==> exists i :: 0 <= i < |rows| && NameOf(rows[i]) == n {
      if n in NamesOf(rows) { var i := RowNamed(rows, n); }
    }
  }

  lemma NamedRows(rows: seq<Value>)
    requires Named(rows)
    ensures forall i | 0 <= i < |rows| :: NamedRow(rows[i])
  {
    hide NameOf, NamedRow;
  }

  lemma RowNamed(rows: seq<Value>, n: Str) returns (i: nat)
    requires (forall i | 0 <= i < |rows| :: NamedRow(rows[i])) && n in NamesOf(rows)
    ensures i < |rows| && NameOf(rows[i]) == n
  {
    hide NameOf, NamedRow;
    i :| 0 <= i < |rows| && NameOf(rows[i]) == n;
  }
}
