/** The plan of a batch of pins: every edit is computed on the original text, yet stays the right edit while
    edits further down the text are applied before it. */
module PinPlan {
  import opened Json
  import opened JsonFacts
  import opened JsonEdit
  import opened JsonLayout
  import opened FieldScan
  import opened FieldSetting
  import opened ExecutorPin
  import opened CatalogText

  /** One pin: an entry, and which of its two blocks. */
  datatype Target = Target(row: nat, field: Str)

  ghost predicate PinField(field: Str) { field == RELEASE || field == DEPLOYMENT }

  /** An entry in which a block can be pinned: the block is an object if it is there, and one of the two blocks is. */
  ghost predicate GoodPin(row: Value, field: Str) {
    && row.Object? && PinField(field)
    && (field in row.fields ==> row.fields[field].Object?)
    && (DEPLOYMENT in row.fields || RELEASE in row.fields)
  }

  ghost predicate GoodTarget(rows: seq<Value>, t: Target) { t.row < |rows| && GoodPin(rows[t.row], t.field) }

  /** The edit of a target, with positions in the text. */
  ghost function TargetEdit(text: string, t: Target): Option<Edit> {
    match EntrySpans(text)
    case Fail => None
    case Ok(spans, _) =>
      if t.row < |spans| && spans[t.row].start <= spans[t.row].end <= |text| then
        MoveEdit(ExecutorEdit(text[spans[t.row].start..spans[t.row].end], t.field), spans[t.row].start)
      else None
  }

  lemma TargetEditIs(text: string, spans: seq<Slot>, t: Target)
    requires EntrySpans(text).Ok? && EntrySpans(text).value == spans
    requires t.row < |spans| && spans[t.row].start <= spans[t.row].end <= |text|
    ensures TargetEdit(text, t)
         == MoveEdit(ExecutorEdit(text[spans[t.row].start..spans[t.row].end], t.field), spans[t.row].start)
  {
    hide EntrySpans, ExecutorEdit, MoveEdit;
  }

  function PinRow(row: Value, field: Str): Value
    requires GoodPin(row, field)
  {
    Object(WithExecutor(row.fields, field))
  }

  /** One pin applied to a catalog's text: the edit is inside its entry and pins exactly that executor. */
  lemma ApplyTarget(text: string, root: map<Str, Value>, rows: seq<Value>, spans: seq<Slot>, t: Target)
    returns (e: Edit, spans': seq<Slot>, len: nat)
    requires IsCatalog(text, root, rows, spans) && GoodTarget(rows, t)
    ensures TargetEdit(text, t) == Some(e)
    ensures spans[t.row].start < e.start <= e.end < spans[t.row].end <= |text|
    ensures len == spans[t.row].end - spans[t.row].start + |e.replacement| - (e.end - e.start)
    ensures var rows' := rows[t.row := PinRow(rows[t.row], t.field)];
            IsCatalog(Apply(text, e), root[SERVICES := Array(rows')], rows', spans')
    ensures Replaced(spans, spans', t.row, len, PinRow(rows[t.row], t.field))
  {
    hide Rooted, EntrySpans, Exact, Replaced, ExecutorEdit, UnitsOf, Splice;
    var s, n := spans[t.row].start, spans[t.row].end;
    var entry := text[s..n];
    var e0 := PinEntry(entry, rows[t.row].fields, t.field);
    SpliceAround(entry, e0.start, e0.end, e0.replacement);
    e := Edit(e0.start + s, e0.end + s, e0.replacement);
    TargetEditIs(text, spans, t);
    spans' := ReplaceRow(text, root, rows, spans, t.row, Apply(entry, e0), PinRow(rows[t.row], t.field));
    NestedSplice(text, s, n, e0.start, e0.end, e0.replacement);
    len := |Apply(entry, e0)|;
  }

  // Stability

  /** The edits of two different targets never touch, and applying the later one first leaves the earlier one as
      it was computed. */
  lemma Stable(text: string, root: map<Str, Value>, rows: seq<Value>, spans: seq<Slot>, t: Target, u: Target)
    returns (e: Edit, r: Edit)
    requires IsCatalog(text, root, rows, spans) && GoodTarget(rows, t) && GoodTarget(rows, u) && t != u
    ensures TargetEdit(text, t) == Some(e) && TargetEdit(text, u) == Some(r)
    ensures e.start <= e.end <= |text| && r.start <= r.end <= |text|
    ensures r.end < e.start || e.end < r.start
    ensures r.start < e.start ==> TargetEdit(Apply(text, e), u) == Some(r)
  {
    hide Rooted, EntrySpans, Exact, Replaced, ExecutorEdit, TargetEdit, UnitsOf, Splice, GoodPin, Entries;
    var spans', spans'', len, len';
    e, spans', len := ApplyTarget(text, root, rows, spans, t);
    r, spans'', len' := ApplyTarget(text, root, rows, spans, u);
    EntriesOrdered(text, rows, spans);
    var s, n := spans[u.row].start, spans[u.row].end;
    if u.row < t.row {
      assert n < spans[t.row].start;
      ReplacedBefore(spans, spans', t.row, len, PinRow(rows[t.row], t.field), u.row);
      PrefixKept(text, e, s, n);
      TargetEditIs(text, spans, u);
      TargetEditIs(Apply(text, e), spans', u);
    } else if u.row > t.row {
      assert spans[t.row].end < spans[u.row].start;
    } else {
      SameRow(text, root, rows, spans, spans', len, t, u, e, r);
    }
  }

  lemma EntriesOrdered(text: string, rows: seq<Value>, spans: seq<Slot>)
    requires Entries(text, rows, spans)
    ensures Ordered(spans, |text|) && |spans| == |rows|
    ensures forall i | 0 <= i < |spans| :: Exact(text[spans[i].start..spans[i].end], rows[i])
  {
    hide Exact;
  }

  lemma SameRow(text: string, root: map<Str, Value>, rows: seq<Value>, spans: seq<Slot>, spans': seq<Slot>, len: nat,
                t: Target, u: Target, e: Edit, r: Edit)
    requires IsCatalog(text, root, rows, spans) && GoodTarget(rows, t) && GoodTarget(rows, u) && t != u
             && t.row == u.row
    requires TargetEdit(text, t) == Some(e) && TargetEdit(text, u) == Some(r)
    requires spans[t.row].start < e.start <= e.end < spans[t.row].end <= |text|
    requires len == spans[t.row].end - spans[t.row].start + |e.replacement| - (e.end - e.start)
    requires EntrySpans(Apply(text, e)).Ok? && EntrySpans(Apply(text, e)).value == spans'
    requires Replaced(spans, spans', t.row, len, PinRow(rows[t.row], t.field))
    ensures r.end < e.start || e.end < r.start
    ensures r.start < e.start ==> TargetEdit(Apply(text, e), u) == Some(r)
  {
    hide Rooted, EntrySpans, Exact, Replaced, ExecutorEdit, TargetEdit, UnitsOf, Splice, Entries;
    EntriesOrdered(text, rows, spans);
    var s, n := spans[t.row].start, spans[t.row].end;
    var entry := text[s..n];
    NamesDiffer();
    var e0, r0 := EntryStable(entry, rows[t.row].fields, t.field, u.field);
    TargetEditIs(text, spans, t);
    TargetEditIs(text, spans, u);
    assert e == Edit(e0.start + s, e0.end + s, e0.replacement) && r == Edit(r0.start + s, r0.end + s, r0.replacement);
    ReplacedSlot(spans, spans', t.row, len, PinRow(rows[t.row], t.field));
    NestedSplice(text, s, n, e0.start, e0.end, e0.replacement);
    SpliceAround(text, s, n, Apply(entry, e0));
    SpliceAround(entry, e0.start, e0.end, e0.replacement);
    TargetEditIs(Apply(text, e), spans', u);
  }
}
