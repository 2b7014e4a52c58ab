/** prepare of scripts/pin_reconnections_catalog.py:76-219: two staged edits of one entry, the second recorded at its
    offset in the text the first one leaves. */
module PinReconnections {
  import opened Json
  import opened JsonFacts
  import opened JsonEdit
  import opened JsonLayout
  import opened FieldScan
  import opened FieldSetting
  import opened ExecutorPin
  import opened CatalogText
  import opened PinPlan
  import opened PinBatch
  import opened PinRun
  import opened PinSource
  import opened PinOutcome
  import opened Utf8

  const PROJECT: Str := UnitsOf("project_id")
  const REGION: Str := UnitsOf("region")

  /** set_field. */
  function SetField(text: string, name: Str, literal: string): Option<string> {
    match FieldEdit(text, name, literal)
    case None => None
    case Some(e) => if e.start <= e.end <= |text| then Some(Apply(text, e)) else None
  }

  // One stage

  lemma ScanOfEntry(entry: string, m: map<Str, Value>) returns (slots: seq<Slot>)
    requires Exact(entry, Object(m))
    ensures Scan(entry, 0, true) == Ok(slots, |entry| - 1) && UniqueKeys(slots)
    ensures Laid(entry, true, slots) && Fields(slots) == m
    ensures forall k :: k in m <==> Find(slots, k) < |slots|
    ensures forall k | k in m :: m[k] == slots[Find(slots, k)].value
    ensures forall k :: k in Spans(slots) <==> k in m
    ensures forall k | k in m :: Spans(slots)[k] == Span(slots[Find(slots, k)].start, slots[Find(slots, k)].end)
    ensures forall i | 0 <= i < |slots| :: slots[i].start < slots[i].end < |entry|
    ensures forall i | 0 <= i < |slots| :: Exact(entry[slots[i].start..slots[i].end], slots[i].value)
  {
    hide Laid, Exact, Fields, Find, Spans, Scan;
    MeansLaid(entry, true, Object(m));
    slots := Layout(entry, true).value;
    EntryScan(entry, slots);
    LaidUnique(entry, slots);
    LaidSlots(entry, true, slots);
    FieldsOf(slots);
    SpansKeys(slots);
    forall k | Find(slots, k) < |slots|
      ensures k in Spans(slots) && Spans(slots)[k] == Span(slots[Find(slots, k)].start, slots[Find(slots, k)].end)
    {
      assert slots[Find(slots, k)].key == k;
    }
  }

  lemma FieldEditAt(entry: string, slots: seq<Slot>, field: Str, literal: string)
    requires entry != "" && Scan(entry, 0, true) == Ok(slots, |entry| - 1) && Find(slots, field) < |slots|
    ensures FieldEdit(entry, field, literal)
         == Some(Edit(slots[Find(slots, field)].start, slots[Find(slots, field)].end, literal))
  {
    hide Scan, Find;
  }

  lemma ExecutorEditMissing(entry: string, slots: seq<Slot>, field: Str)
    requires entry != "" && Scan(entry, 0, true) == Ok(slots, |entry| - 1) && Find(slots, field) == |slots|
    ensures ExecutorEdit(entry, field) == FieldEdit(entry, field, BLOCK)
  {
    hide Scan, FieldEdit, MoveEdit, Find;
  }

  /** Setting a block to its edited text is the edit made in place. */
  lemma StageText(entry: string, slots: seq<Slot>, field: Str, inner: Edit)
    requires entry != "" && Scan(entry, 0, true) == Ok(slots, |entry| - 1) && Find(slots, field) < |slots|
    requires var i := Find(slots, field);
             slots[i].start <= slots[i].end <= |entry|
             && FieldEdit(entry[slots[i].start..slots[i].end], EXECUTOR, GITHUB) == Some(inner)
             && inner.start <= inner.end <= slots[i].end - slots[i].start
    ensures var s, t := slots[Find(slots, field)].start, slots[Find(slots, field)].end;
            && SetField(entry[s..t], EXECUTOR, GITHUB).Some?
            && SetField(entry, field, SetField(entry[s..t], EXECUTOR, GITHUB).value)
               == Some(Splice(entry, s + inner.start, s + inner.end, inner.replacement))
  {
    hide Scan, FieldEdit, Find, Splice;
    var s, t := slots[Find(slots, field)].start, slots[Find(slots, field)].end;
    var block := Apply(entry[s..t], inner);
    FieldEditAt(entry, slots, field, block);
    NestedSplice(entry, s, t, inner.start, inner.end, inner.replacement);
  }

  lemma SetFieldIs(text: string, name: Str, literal: string, e: Edit)
    requires FieldEdit(text, name, literal) == Some(e) && e.start <= e.end <= |text|
    ensures SetField(text, name, literal) == Some(Apply(text, e))
  {
    hide FieldEdit;
  }

  /** One stage: pin the executor of a block, or add the block. The edit it records is executor_edit's, and setting
      the whole block gives the same text as that edit. */
  method PinStage(entry: string, ghost m: map<Str, Value>, field: Str) returns (e: Edit, changed: string)
    requires Exact(entry, Object(m)) && m != map[] && (field in m ==> m[field].Object?)
    ensures ExecutorEdit(entry, field) == Some(e) && 0 < e.start <= e.end < |entry|
    ensures changed == Apply(entry, e) && Exact(changed, Object(WithExecutor(m, field)))
  {
    hide Laid, Exact, Fields, ExecutorEdit, FieldEdit, Find, UnitsOf, Splice, UniqueKeys, Scan, Spans, MoveEdit,
         SetField;
    ghost var pin := PinEntry(entry, m, field);
    ghost var slots := ScanOfEntry(entry, m);
    var scanned := ObjectFields(entry, 0);
    var fields := scanned.value;
    if field in fields {
      var start, end := fields[field].start, fields[field].end;
      BlockEdit(entry, slots, Find(slots, field), field);
      var child := entry[start..end];
      ghost var inner' := SetFieldExact(child, m[field].fields, EXECUTOR, GITHUB, GITHUB_ACTIONS) by { GithubExact(); }
      StageText(entry, slots, field, inner');
      var inner := FieldEdit(child, EXECUTOR, GITHUB).value;
      e := Edit(start + inner.start, start + inner.end, inner.replacement);
      MoveEditIs(FieldEdit(child, EXECUTOR, GITHUB), start);
      var block := SetField(child, EXECUTOR, GITHUB);
      changed := SetField(entry, field, block.value).value;
    } else {
      ExecutorEditMissing(entry, slots, field);
      e := FieldEdit(entry, field, BLOCK).value;
      SetFieldIs(entry, field, BLOCK, e);
      changed := SetField(entry, field, BLOCK).value;
    }
  }

  lemma MoveEditIs(e: Option<Edit>, d: nat)
    ensures MoveEdit(e, d).Some? <==> e.Some?
    ensures e.Some? ==> MoveEdit(e, d).value == Edit(e.value.start + d, e.value.end + d, e.value.replacement)
  {
  }

  // The guards

  /** The service, where it lives, the comparison of repositories that ignores case, and a code for each number lexeme.
      Lexemes have one code exactly if their numbers are equal, integer or not; 0 and 1 are the codes of 0 and 1. */
  datatype Review = Review(service: Str, repository: Str, project: Str, region: Str, shared: Value -> bool,
                           number: string -> int)

  /** Names as the members of a set, where True equals 1 and False equals 0. */
  datatype Key = TextKey(units: Str) | NullKey | NumberKey(code: int)

  /** A row's name can be put into a set: it is anything but a list or an object, missing counting as null. */
  predicate NameKey(row: Value) {
    row.Object? && !Get(row.fields, SERVICE_NAME, Null).Array? && !Get(row.fields, SERVICE_NAME, Null).Object?
  }

  function NameValue(row: Value): Value
    requires NameKey(row)
  {
    Get(row.fields, SERVICE_NAME, Null)
  }

  /** Two names are equal to Python: numbers by value, where True is 1 and False is 0. */
  ghost predicate SameName(review: Review, a: Value, b: Value)
    requires NameKey(a) && NameKey(b)
  {
    var x := if SERVICE_NAME in a.fields then a.fields[SERVICE_NAME] else Null;
    var y := if SERVICE_NAME in b.fields then b.fields[SERVICE_NAME] else Null;
    x == y
    || (x.Number? && y.Number? && review.number(x.lexeme) == review.number(y.lexeme))
    || (x.Number? && y.True? && review.number(x.lexeme) == 1)
    || (x.True? && y.Number? && review.number(y.lexeme) == 1)
    || (x.Number? && y.False? && review.number(x.lexeme) == 0)
    || (x.False? && y.Number? && review.number(y.lexeme) == 0)
  }

  function KeyOf(review: Review, row: Value): Key
    requires NameKey(row)
  {
    match NameValue(row)
    case Null => NullKey
    case True => NumberKey(1)
    case False => NumberKey(0)
    case Number(lexeme) => NumberKey(review.number(lexeme))
    case Text(units) => TextKey(units)
  }

  lemma SameKey(review: Review, a: Value, b: Value)
    requires NameKey(a) && NameKey(b)
    ensures KeyOf(review, a) == KeyOf(review, b) <==> SameName(review, a, b)
    ensures NameValue(a) == NameValue(b) ==> SameName(review, a, b)
  {
    hide UnitsOf;
  }

  ghost predicate DistinctNames(review: Review, rows: seq<Value>) {
    && (forall i | 0 <= i < |rows| :: NameKey(rows[i]))
    && (forall i, j | 0 <= i < j < |rows| :: !SameName(review, rows[i], rows[j]))
  }

  /** The reviewed target: where it lives, without a release executor, and with an automatic deployment. */
  ghost predicate TargetReviewed(review: Review, row: Value)
    requires row.Object?
  {
    && Says(row, SERVICE_NAME, Text(review.service)) && Says(row, REPOSITORY, Text(review.repository))
    && Says(row, PROJECT, Text(review.project)) && Says(row, REGION, Text(review.region))
    && (RELEASE in row.fields ==>
          && row.fields[RELEASE].Object?
          && (EXECUTOR in row.fields[RELEASE].fields ==> row.fields[RELEASE].fields[EXECUTOR] == Null))
    && DEPLOYMENT in row.fields && row.fields[DEPLOYMENT].Object?
    && (EXECUTOR in row.fields[DEPLOYMENT].fields ==> row.fields[DEPLOYMENT].fields[EXECUTOR] == AUTO)
  }

  /** Another service of the same repository is released by GitHub already. */
  ghost predicate OtherReviewed(review: Review, row: Value)
    requires row.Object?
  {
    review.shared(if REPOSITORY in row.fields then row.fields[REPOSITORY] else Text([])) ==>
      RELEASE in row.fields && Says(row.fields[RELEASE], EXECUTOR, GITHUB_ACTIONS)
  }

  ghost predicate Reviewed(review: Review, rows: seq<Value>, index: nat) {
    && DistinctNames(review, rows)
    && index < |rows| && TargetReviewed(review, rows[index])
    && forall i | 0 <= i < |rows| :: i != index ==> OtherReviewed(review, rows[i])
  }

  method CheckNames(review: Review, rows: seq<Value>) returns (ok: bool)
    ensures ok == DistinctNames(review, rows)
  {
    hide UnitsOf, KeyOf, NameKey, SameName;
    var names: set<Key> := {};
    for i := 0 to |rows|
      invariant forall k | 0 <= k < i :: NameKey(rows[k]) && KeyOf(review, rows[k]) in names
      invariant forall k, j | 0 <= k < j < i :: KeyOf(review, rows[k]) != KeyOf(review, rows[j])
      invariant forall n | n in names :: exists k :: 0 <= k < i && KeyOf(review, rows[k]) == n
    {
      if !NameKey(rows[i]) { return false; }
      if KeyOf(review, rows[i]) in names {
        var k :| 0 <= k < i && KeyOf(review, rows[k]) == KeyOf(review, rows[i]);
        SameKey(review, rows[k], rows[i]);
        return false;
      }
      names := names + {KeyOf(review, rows[i])};
    }
    forall i, j | 0 <= i < j < |rows| ensures !SameName(review, rows[i], rows[j]) {
      SameKey(review, rows[i], rows[j]);
    }
    return true;
  }

  lemma KeyedRows(review: Review, rows: seq<Value>)
    requires DistinctNames(review, rows)
    ensures forall i | 0 <= i < |rows| :: NameKey(rows[i])
  {
    hide NameKey, SameName;
  }

  lemma KeyedObject(row: Value)
    requires NameKey(row)
    ensures row.Object?
  {
  }

  lemma OneMatch(review: Review, rows: seq<Value>, i: nat, j: nat)
    requires DistinctNames(review, rows) && i < |rows| && j < |rows| && NameValue(rows[i]) == NameValue(rows[j])
    ensures i == j
  {
    hide NameKey, NameValue, SameName;
    SameKey(review, rows[i], rows[j]);
    SameKey(review, rows[j], rows[i]);
  }

  /** The guards on the target. */
  method CheckTarget(review: Review, row: Value) returns (ok: bool)
    requires NameKey(row) && NameValue(row) == Text(review.service)
    ensures ok == TargetReviewed(review, row)
  {
    hide UnitsOf;
    if Get(row.fields, REPOSITORY, Null) != Text(review.repository) { return false; }
    if Get(row.fields, PROJECT, Null) != Text(review.project) { return false; }
    if Get(row.fields, REGION, Null) != Text(review.region) { return false; }
    var release := Get(row.fields, RELEASE, Object(map[]));
    if !release.Object? || Get(release.fields, EXECUTOR, Null) != Null { return false; }
    var deployment := Get(row.fields, DEPLOYMENT, Null);
    if !deployment.Object? || Get(deployment.fields, EXECUTOR, AUTO) != AUTO { return false; }
    return true;
  }

  /** The guard on another row. */
  method CheckOther(review: Review, row: Value) returns (ok: bool)
    requires row.Object?
    ensures ok == OtherReviewed(review, row)
  {
    hide UnitsOf;
    if review.shared(Get(row.fields, REPOSITORY, Text([]))) {
      var release := Get(row.fields, RELEASE, Object(map[]));
      if !release.Object? || Get(release.fields, EXECUTOR, Null) != GITHUB_ACTIONS { return false; }
    }
    return true;
  }

  lemma TargetNamed(review: Review, row: Value)
    requires NameKey(row) && TargetReviewed(review, row)
    ensures NameValue(row) == Text(review.service)
  {
    hide UnitsOf;
  }

  /** The guards on the rows: the index of the reviewed target, when there is one. */
  method FindTarget(review: Review, rows: seq<Value>) returns (ok: bool, index: nat)
    ensures ok ==> Reviewed(review, rows, index)
    ensures !ok ==> forall i :: !Reviewed(review, rows, i)
  {
    hide TargetReviewed, OtherReviewed, NameKey, NameValue, DistinctNames;
    index := 0;
    ok := CheckNames(review, rows);
    if !ok { return; }
    KeyedRows(review, rows);
    while index < |rows| && NameValue(rows[index]) != Text(review.service)
      invariant index <= |rows| && forall k | 0 <= k < index :: NameValue(rows[k]) != Text(review.service)
    {
      index := index + 1;
    }
    forall i: nat | Reviewed(review, rows, i) 
      ensures i == index && index < |rows| && rows[i].Object? && TargetReviewed(review, rows[i])
    {
      KeyedObject(rows[i]);
      TargetNamed(review, rows[i]);
      OneMatch(review, rows, i, index);
    }
    if index == |rows| { return false, 0; }
    KeyedObject(rows[index]);
    ok := CheckTarget(review, rows[index]);
    if !ok { return; }
    for i := 0 to |rows|
      invariant forall k | 0 <= k < i :: k != index ==> rows[k].Object? && OtherReviewed(review, rows[k])
    {
      KeyedObject(rows[i]);
      if i != index {
        ok := CheckOther(review, rows[i]);
        if !ok { return; }
      }
    }
    ok := true;
  }

  lemma TargetGood(review: Review, row: Value)
    requires row.Object? && TargetReviewed(review, row)
    ensures TwicePinnable(row)
  {
    hide UnitsOf;
    NamesDiffer();
  }

  // The whole run

  ghost predicate TwicePinnable(row: Value) { GoodPin(row, DEPLOYMENT) && GoodPin(PinRow(row, DEPLOYMENT), RELEASE) }

  ghost predicate Pinnable(rows: seq<Value>, index: nat) { index < |rows| && TwicePinnable(rows[index]) }

  function RowsAfter(rows: seq<Value>, index: nat): seq<Value>
    requires Pinnable(rows, index)
  {
    rows[index := BothPinned(rows[index])]
  }

  /** The target row after both stages. */
  function BothPinned(row: Value): Value
    requires TwicePinnable(row)
  {
    PinRow(PinRow(row, DEPLOYMENT), RELEASE)
  }

  /** What record_edit notes of an edit of the entry at `start`. */
  function StageEdit(text: string, start: nat, entry: string, e: Edit): ByteEdit
    requires start <= |text| && e.start <= e.end <= |entry|
  {
    ByteEdit(|Encode(text[..start])| + |Encode(entry[..e.start])|, Encode(entry[e.start..e.end]), Encode(e.replacement))
  }

  lemma SlicesOf(text: string, start: nat, end: nat, a: nat, b: nat)
    requires start <= end <= |text| && a <= b <= end - start
    ensures text[..start] + text[start..end][..a] == text[..start + a]
    ensures text[start..end][a..b] == text[start + a..start + b]
  {
    SliceOfSlice(text, start, end, a, b);
  }

  /** A recorded edit, replayed on the bytes of the text it was recorded in, replaces the entry. */
  lemma StageReplays(text: string, start: nat, end: nat, entry: string, e: Edit, after: string)
    requires start <= end <= |text| && entry == text[start..end] && e.start <= e.end <= |entry|
    requires after == Splice(text, start, end, Apply(entry, e))
    ensures Replay(Encode(text), StageEdit(text, start, entry, e)) == Some(Encode(after))
  {
    hide *;
    NestedApply(text, start, end, e);
    ReplaysAs(text, start, end, e, after);
  }

  lemma ReplaysAs(text: string, start: nat, end: nat, e: Edit, whole: string)
    requires start <= end <= |text| && e.start <= e.end <= end - start
    requires whole == Splice(text, start + e.start, start + e.end, e.replacement)
    ensures Replay(Encode(text), StageEdit(text, start, text[start..end], e)) == Some(Encode(whole))
  {
    hide *;
    StageEditIs(text, start, end, e);
    ReplayEdit(text, start + e.start, start + e.end, e.replacement);
  }

  lemma NestedApply(text: string, start: nat, end: nat, e: Edit)
    requires start <= end <= |text| && e.start <= e.end <= end - start
    ensures Splice(text, start, end, Apply(text[start..end], e))
            == Splice(text, start + e.start, start + e.end, e.replacement)
  {
    hide Splice;
    NestedSplice(text, start, end, e.start, e.end, e.replacement);
  }

  lemma StageEditIs(text: string, start: nat, end: nat, e: Edit)
    requires start <= end <= |text| && e.start <= e.end <= end - start
    ensures StageEdit(text, start, text[start..end], e)
         == ByteEdit(Offset(text, start + e.start), Encode(text[start + e.start..start + e.end]), Encode(e.replacement))
  {
    hide Encode;
    EncodeConcat(text[..start], text[start..end][..e.start]);
    SlicesOf(text, start, end, e.start, e.end);
  }

  lemma ReplayEdit(text: string, a: nat, b: nat, lit: string)
    requires a <= b <= |text|
    ensures Replay(Encode(text), ByteEdit(Offset(text, a), Encode(text[a..b]), Encode(lit)))
         == Some(Encode(Splice(text, a, b, lit)))
  {
    hide Encode, Replay, Offset;
    ReplaySplice(text, a, b, lit);
  }

  lemma SpliceAgain(text: string, a: nat, b: nat, x: string, y: string)
    requires a <= b <= |text|
    ensures a + |x| <= |Splice(text, a, b, x)| && Splice(text, a, b, x)[a..a + |x|] == x
    ensures Splice(text, a, b, x)[..a] == text[..a]
    ensures Splice(Splice(text, a, b, x), a, a + |x|, y) == Splice(text, a, b, y)
  {
  }

  /** What a finished run delivers: the candidate decodes to the source with both executors of the one target pinned;
      before and after the entry it is the source, byte for byte; and the two reported edits, replayed in order, each
      on the bytes the one before left, give the candidate. */
  ghost predicate StagedPin(raw: seq<Byte>, text: string, root: map<Str, Value>, rows: seq<Value>, index: nat, at: Span,
                            candidate: seq<Byte>, edits: seq<PinEdit>, after: string, entry: string)
  {
    && EntryAt(text, index, at) && Spliced(text, at, entry, after)
    && Pinnable(rows, index)
    && Exact(entry, BothPinned(rows[index]))
    && Rooted(after, root[SERVICES := Array(RowsAfter(rows, index))], RowsAfter(rows, index))
    && candidate == Encode(after)
    && |edits| == 2 && edits[0].target == Target(index, DEPLOYMENT) && edits[1].target == Target(index, RELEASE)
    && ReplayAll(raw, edits) == Some(candidate)
  }

  ghost predicate EntryAt(text: string, index: nat, at: Span) {
    && EntrySpans(text).Ok? && index < |EntrySpans(text).value|
    && at == Span(EntrySpans(text).value[index].start, EntrySpans(text).value[index].end)
  }

  ghost predicate Spliced(text: string, at: Span, entry: string, after: string) {
    at.start <= at.end <= |text| && after == Splice(text, at.start, at.end, entry)
  }

  lemma ReplayTwo(raw: seq<Byte>, a: PinEdit, b: PinEdit, mid: seq<Byte>, end: seq<Byte>)
    requires Replay(raw, a.edit) == Some(mid) && Replay(mid, b.edit) == Some(end)
    ensures ReplayAll(raw, [a, b]) == Some(end)
  {
    hide Replay;
    assert [a, b][1..] == [b] && [b][1..] == [];
    assert ReplayAll(mid, [b]) == ReplayAll(end, []);
  }

  lemma EntryText(text: string, root: map<Str, Value>, rows: seq<Value>, spans: seq<Slot>, index: nat)
    requires IsCatalog(text, root, rows, spans) && index < |rows|
    ensures index < |spans| && EntryAt(text, index, Span(spans[index].start, spans[index].end))
    ensures spans[index].start <= spans[index].end <= |text|
            && Exact(text[spans[index].start..spans[index].end], rows[index])
  {
    hide Exact, EntrySpans, Rooted;
    EntriesOrdered(text, rows, spans);
  }

  lemma RootedAfter(text: string, root: map<Str, Value>, rows: seq<Value>, spans: seq<Slot>, index: nat, entry: string)
    requires IsCatalog(text, root, rows, spans) && Pinnable(rows, index) && Exact(entry, BothPinned(rows[index]))
    ensures index < |spans| && spans[index].start <= spans[index].end <= |text|
    ensures Rooted(Splice(text, spans[index].start, spans[index].end, entry),
                   root[SERVICES := Array(RowsAfter(rows, index))], RowsAfter(rows, index))
  {
    hide Exact, EntrySpans, Rooted, Entries, Replaced, Splice, BothPinned, TwicePinnable;
    CatalogOrdered(text, root, rows, spans);
    var spans' := ReplaceRow(text, root, rows, spans, index, entry, BothPinned(rows[index]));
  }

  lemma JoinBytes(text: string, start: nat, end: nat, entry: string)
    requires start <= end <= |text|
    ensures Encode(text[..start]) + Encode(entry) + Encode(text[end..]) == Encode(Splice(text, start, end, entry))
  {
    hide Encode;
    EncodeConcat(text[..start] + entry, text[end..]);
    EncodeConcat(text[..start], entry);
  }

  lemma SameStage(text: string, middle: string, start: nat, entry: string, e: Edit)
    requires start <= |text| && start <= |middle| && text[..start] == middle[..start] && e.start <= e.end <= |entry|
    ensures StageEdit(text, start, entry, e) == StageEdit(middle, start, entry, e)
  {
  }

  /** The two recorded edits, replayed in order, lead from the source to the text with the twice edited entry. */
  lemma BothReplay(text: string, start: nat, end: nat, e: Edit, changed: string, e2: Edit, changed2: string,
                   a: PinEdit, b: PinEdit)
    requires start <= end <= |text| && e.start <= e.end <= end - start && changed == Apply(text[start..end], e)
    requires e2.start <= e2.end <= |changed| && changed2 == Apply(changed, e2)
    requires a.edit == StageEdit(text, start, text[start..end], e) && b.edit == StageEdit(text, start, changed, e2)
    ensures ReplayAll(Encode(text), [a, b]) == Some(Encode(Splice(text, start, end, changed2)))
  {
    hide *;
    var middle, after := Splice(text, start, end, changed), Splice(text, start, end, changed2);
    SpliceAgain(text, start, end, changed, changed2);
    StageReplays(text, start, end, text[start..end], e, middle);
    StageReplays(middle, start, start + |changed|, changed, e2, after);
    SameStage(text, middle, start, changed, e2);
    ReplayTwo(Encode(text), a, b, Encode(middle), Encode(after));
  }

  /** Deployment, then release, each on the entry as the stage before left it. */
  method PinTwice(original: string, ghost row: Value) returns (e: Edit, changed: string, e2: Edit, changed2: string)
    requires Exact(original, row) && TwicePinnable(row)
    ensures e.start <= e.end <= |original| && changed == Apply(original, e)
    ensures e2.start <= e2.end <= |changed| && changed2 == Apply(changed, e2)
    ensures Exact(changed2, BothPinned(row))
  {
    hide Exact, ExecutorEdit, GoodPin, PinRow, Apply, BothPinned;
    RowFields(row);
    e, changed := PinStage(original, row.fields, DEPLOYMENT);
    e2, changed2 := PinStage(changed, PinRow(row, DEPLOYMENT).fields, RELEASE);
  }

  /** The two stages on the target entry. */
  method PinBoth(raw: seq<Byte>, text: string, ghost root: map<Str, Value>, ghost rows: seq<Value>, spans: seq<Slot>,
                 index: nat)
    returns (candidate: seq<Byte>, edits: seq<PinEdit>, ghost after: string, ghost entry: string)
    requires raw == Encode(text) && IsCatalog(text, root, rows, spans) && Pinnable(rows, index)
    ensures index < |spans| && StagedPin(raw, text, root, rows, index, Span(spans[index].start, spans[index].end),
                                         candidate, edits, after, entry)
  {
    hide Encode, Exact, Rooted, IsCatalog, BothPinned, TwicePinnable, StageEdit, Splice, Apply, EntryAt, ReplayAll,
         StagedPin, RowsAfter;
    EntryText(text, root, rows, spans, index);
    var start, end := spans[index].start, spans[index].end;
    var original := text[start..end];
    var e, changed, e2, changed2 := PinTwice(original, rows[index]);
    var first := PinEdit(Target(index, DEPLOYMENT), StageEdit(text, start, original, e));
    var second := PinEdit(Target(index, RELEASE), StageEdit(text, start, changed, e2));
    edits := [first, second];
    candidate := Encode(text[..start]) + Encode(changed2) + Encode(text[end..]);
    after, entry := Splice(text, start, end, changed2), changed2;
    BothReplay(text, start, end, e, changed, e2, changed2, first, second);
    JoinBytes(text, start, end, changed2);
    RootedAfter(text, root, rows, spans, index, changed2);
    StagedIs(raw, text, root, rows, index, Span(start, end), candidate, first, second, after, entry);
  }

  lemma StagedIs(raw: seq<Byte>, text: string, root: map<Str, Value>, rows: seq<Value>, index: nat, at: Span,
                 candidate: seq<Byte>, a: PinEdit, b: PinEdit, after: string, entry: string)
    requires EntryAt(text, index, at) && at.start <= at.end <= |text| && after == Splice(text, at.start, at.end, entry)
    requires Pinnable(rows, index)
    requires Exact(entry, BothPinned(rows[index]))
    requires Rooted(after, root[SERVICES := Array(RowsAfter(rows, index))], RowsAfter(rows, index))
    requires candidate == Encode(after) && a.target == Target(index, DEPLOYMENT) && b.target == Target(index, RELEASE)
    requires ReplayAll(raw, [a, b]) == Some(candidate)
    ensures StagedPin(raw, text, root, rows, index, at, candidate, [a, b], after, entry)
  {
    hide EntryAt, Splice, TwicePinnable, BothPinned, RowsAfter, Exact, Rooted, Encode, ReplayAll;
  }

  lemma RowFields(row: Value)
    requires TwicePinnable(row)
    ensures row.Object? && row == Object(row.fields) && row.fields != map[]
    ensures DEPLOYMENT in row.fields ==> row.fields[DEPLOYMENT].Object?
    ensures PinRow(row, DEPLOYMENT) == Object(WithExecutor(row.fields, DEPLOYMENT))
            && PinRow(row, DEPLOYMENT).fields != map[]
    ensures RELEASE in PinRow(row, DEPLOYMENT).fields ==> PinRow(row, DEPLOYMENT).fields[RELEASE].Object?
    ensures BothPinned(row) == Object(WithExecutor(PinRow(row, DEPLOYMENT).fields, RELEASE))
  {
    hide UnitsOf;
  }

  /** prepare: a refusal exactly when no row is the reviewed target; otherwise the finished run. The checks after the
      edits never fail. */
  method Prepare(raw: seq<Byte>, digest: seq<Byte> -> Str, sha: Str, review: Review)
    returns (r: Outcome, ghost index: nat, ghost at: Span, ghost after: string, ghost entry: string)
    ensures r.Refused? || r.Prepared?
    ensures r.Prepared? ==>
              digest(raw) == sha && |raw| <= SIZE_LIMIT && Catalog(raw) && Reviewed(review, ServicesOf(raw), index)
    ensures r.Refused? ==> digest(raw) != sha || |raw| > SIZE_LIMIT || !Catalog(raw)
                           || forall i :: !Reviewed(review, ServicesOf(raw), i)
    ensures r.Prepared? ==>
              && OnlyRows(raw, r.candidate) && ServicesOf(raw)[index].Object?
              && ServicesOf(r.candidate) == ServicesOf(raw)[index := BothNew(ServicesOf(raw)[index])]
    ensures r.Prepared? ==>
              StagedPin(raw, TextOf(raw), RootOf(raw), ServicesOf(raw), index, at, r.candidate, r.edits, after, entry)
  {
    hide Catalog, TextOf, RootOf, StagedPin, IsCatalog, Rooted, Encode, Reviewed, Utf8.Decode, Json.Decode, RowsAfter,
         TwicePinnable, EntrySpans, OnlyRows, BothNew;
    index, at, after, entry := 0, Span(0, 0), "", "";
    if digest(raw) != sha { return Refused, index, at, after, entry; }
    if |raw| > SIZE_LIMIT { return Refused, index, at, after, entry; }
    var ok, text, root, rows := ReadCatalog(raw);
    if !ok { return Refused, index, at, after, entry; }
    var target;
    ok, target := FindTarget(review, rows);
    if !ok { return Refused, index, at, after, entry; }
    ReviewedPinnable(review, rows, target);
    var spans := ReadEntrySpans(text, root, rows);
    var candidate, edits;
    candidate, edits, after, entry := PinBoth(raw, text, root, rows, spans, target);
    index, at := target, Span(spans[target].start, spans[target].end);
    var start, end := spans[target].start, spans[target].end;
    StagedReads(raw, text, root, rows, index, at, candidate, edits, after, entry);
    StagedRows(raw, rows, index, at, candidate, edits, after, entry);
    var decoded := Utf8.Decode(candidate);
    if decoded.None? { return CheckFailed(Utf8Bytes), index, at, after, entry; }
    var value := Json.Decode(decoded.value);
    if value.Fail? || value.value != Object(root[SERVICES := Array(RowsAfter(rows, target))]) {
      return CheckFailed(Meaning), index, at, after, entry;
    }
    var prefix, suffix := Encode(text[..start]), Encode(text[end..]);
    if !(prefix <= candidate) || !(|suffix| <= |candidate| && candidate[|candidate| - |suffix|..] == suffix) {
      return CheckFailed(OutsideBytes), index, at, after, entry;
    }
    return Prepared(candidate, edits), index, at, after, entry;
  }

  lemma ReviewedPinnable(review: Review, rows: seq<Value>, index: nat)
    requires Reviewed(review, rows, index)
    ensures Pinnable(rows, index)
  {
    hide NameKey, NameValue, KeyOf, TargetReviewed, OtherReviewed, TwicePinnable;
    ReviewedTarget(review, rows, index);
    TargetGood(review, rows[index]);
  }

  lemma ReviewedTarget(review: Review, rows: seq<Value>, index: nat)
    requires Reviewed(review, rows, index)
    ensures index < |rows| && rows[index].Object? && TargetReviewed(review, rows[index])
  {
    hide NameValue, KeyOf, TargetReviewed, OtherReviewed;
  }

  lemma TwiceIsBoth(row: Value)
    requires TwicePinnable(row)
    ensures row.Object? && BothPinned(row) == BothNew(row)
  {
    hide UnitsOf;
    NamesDiffer();
    assert BothPinned(row).fields == BothNew(row).fields;
  }

  /** The candidate, read again. */
  lemma StagedRows(raw: seq<Byte>, rows: seq<Value>, index: nat, at: Span, candidate: seq<Byte>, edits: seq<PinEdit>,
                   after: string, entry: string)
    requires Catalog(raw) && rows == ServicesOf(raw)
    requires StagedPin(raw, TextOf(raw), RootOf(raw), rows, index, at, candidate, edits, after, entry)
    ensures OnlyRows(raw, candidate) && Catalog(candidate) && index < |rows| && rows[index].Object?
    ensures ServicesOf(candidate) == rows[index := BothNew(rows[index])]
  {
    hide Encode, EntryAt, Spliced, ReplayAll, Utf8.Decode, Json.Decode, UnitsOf, BothPinned, TwicePinnable, BothNew,
         Exact;
    DecodeEncode(after);
    TwiceIsBoth(rows[index]);
  }

  /** The finished candidate passes every check. */
  lemma StagedReads(raw: seq<Byte>, text: string, root: map<Str, Value>, rows: seq<Value>, index: nat, at: Span,
                    candidate: seq<Byte>, edits: seq<PinEdit>, after: string, entry: string)
    requires StagedPin(raw, text, root, rows, index, at, candidate, edits, after, entry)
    ensures Utf8.Decode(candidate) == Some(after) && Pinnable(rows, index)
    ensures Json.Decode(after) == Ok(Object(root[SERVICES := Array(RowsAfter(rows, index))]), |after|)
    ensures at.start <= at.end <= |text| && Encode(text[..at.start]) <= candidate
    ensures |Encode(text[at.end..])| <= |candidate|
    ensures candidate[|candidate| - |Encode(text[at.end..])|..] == Encode(text[at.end..])
  {
    hide Encode, Splice, TwicePinnable, RowsAfter, Utf8.Decode, Json.Decode, ReplayAll, EntryAt, Exact;
    DecodeEncode(after);
    JoinBytes(text, at.start, at.end, entry);
    Ends(Encode(text[..at.start]), Encode(entry), Encode(text[at.end..]), candidate);
  }

  lemma Ends(a: seq<Byte>, b: seq<Byte>, c: seq<Byte>, all: seq<Byte>)
    requires all == a + b + c
    ensures a <= all && |c| <= |all| && all[|all| - |c|..] == c
  {
  }
}
