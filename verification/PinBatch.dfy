/** The batched pin of scripts/pin_github_defaults_catalog.py:66-159. With one field instead of two it is also the
    batch of scripts/pin_artemis_release_catalog.py:97-140. */
module PinBatch {
  import opened Json
  import opened JsonFacts
  import opened JsonEdit
  import opened JsonLayout
  import opened FieldScan
  import opened FieldSetting
  import opened ExecutorPin
  import opened CatalogText
  import opened PinPlan
  import opened Utf8

  // The expected catalog

  /** A row's fields once some of its blocks are pinned. */
  ghost function PinnedFields(m: map<Str, Value>, fields: set<Str>): map<Str, Value> {
    map k | k in m.Keys + fields ::
      if k in fields then Object((if k in m && m[k].Object? then m[k].fields else map[])[EXECUTOR := GITHUB_ACTIONS])
      else m[k]
  }

  ghost function PinnedRow(row: Value, fields: set<Str>): Value {
    if fields == {} || !row.Object? then row else Object(PinnedFields(row.fields, fields))
  }

  ghost function FieldsAt(targets: set<Target>, row: nat): set<Str> {
    set t | t in targets && t.row == row :: t.field
  }

  /** The rows once a set of targets is pinned, whatever the order they were pinned in. */
  ghost predicate Pinned(rows: seq<Value>, targets: set<Target>, pinned: seq<Value>) {
    |pinned| == |rows| && forall i | 0 <= i < |rows| :: pinned[i] == PinnedRow(rows[i], FieldsAt(targets, i))
  }

  lemma RowStaysGood(row: Value, fields: set<Str>, f: Str)
    requires GoodPin(row, f)
    ensures GoodPin(PinnedRow(row, fields), f)
  {
    hide UnitsOf;
  }

  lemma RowStep(row: Value, fields: set<Str>, f: Str)
    requires GoodPin(row, f) && f !in fields
    ensures GoodPin(PinnedRow(row, fields), f) && PinRow(PinnedRow(row, fields), f) == PinnedRow(row, fields + {f})
  {
    hide UnitsOf;
    RowStaysGood(row, fields, f);
    var before := PinnedRow(row, fields).fields;
    assert PinnedRow(row, fields) == Object(before);
    assert f in before <==> f in row.fields;
    assert f in before ==> before[f] == row.fields[f];
    assert WithExecutor(before, f) == PinnedFields(row.fields, fields + {f});
  }

  /** Pinning one more target gives the rows of the larger set. */
  lemma PinOneMore(rows: seq<Value>, targets: set<Target>, pinned: seq<Value>, t: Target)
    requires Pinned(rows, targets, pinned) && GoodTarget(rows, t) && t !in targets
    ensures GoodTarget(pinned, t)
    ensures Pinned(rows, targets + {t}, pinned[t.row := PinRow(pinned[t.row], t.field)])
  {
    hide GoodPin, PinnedRow, PinRow, PinField;
    var more := targets + {t};
    RowStaysGood(rows[t.row], FieldsAt(targets, t.row), t.field);
    forall i | 0 <= i < |rows|
      ensures FieldsAt(more, i) == FieldsAt(targets, i) + if i == t.row then {t.field} else {}
    {
    }
    assert t.field !in FieldsAt(targets, t.row);
    RowStep(rows[t.row], FieldsAt(targets, t.row), t.field);
    forall i | 0 <= i < |rows|
      ensures pinned[t.row := PinRow(pinned[t.row], t.field)][i] == PinnedRow(rows[i], FieldsAt(more, i))
    {
      assert i != t.row ==> FieldsAt(targets, i) + {} == FieldsAt(targets, i);
    }
  }

  // The edits

  /** An edit as the report records it, with the entry and block it belongs to. */
  datatype PinEdit = PinEdit(target: Target, edit: ByteEdit)

  function Recorded(text: string, t: Target, e: Edit): PinEdit
    requires e.start <= e.end <= |text|
  {
    PinEdit(t, ByteEdit(Offset(text, e.start), Encode(text[e.start..e.end]), Encode(e.replacement)))
  }

  /** sort(key=offset, reverse=True). */
  function Insert(x: PinEdit, s: seq<PinEdit>): (r: seq<PinEdit>)
    ensures |r| == |s| + 1
  {
    if s == [] || x.edit.offset >= s[0].edit.offset then [x] + s else [s[0]] + Insert(x, s[1..])
  }

  function Sorted(s: seq<PinEdit>): (r: seq<PinEdit>)
    ensures |r| == |s|
  {
    if s == [] then [] else Insert(s[0], Sorted(s[1..]))
  }

  ghost predicate Descending(s: seq<PinEdit>) {
    forall i, j | 0 <= i < j < |s| :: s[i].edit.offset >= s[j].edit.offset
  }

  ghost predicate DistinctTargets(s: seq<PinEdit>) {
    forall i, j | 0 <= i < j < |s| :: s[i].target != s[j].target
  }

  lemma {:induction false} InsertHas(x: PinEdit, s: seq<PinEdit>)
    ensures forall y :: y in Insert(x, s) <==> y == x || y in s
  {
    if s != [] && x.edit.offset < s[0].edit.offset {
      InsertHas(x, s[1..]);
      assert s == [s[0]] + s[1..];
    }
  }

  lemma {:induction false} InsertDescends(x: PinEdit, s: seq<PinEdit>)
    requires Descending(s)
    ensures Descending(Insert(x, s))
  {
    var r := Insert(x, s);
    if s != [] && x.edit.offset < s[0].edit.offset {
      var rest := Insert(x, s[1..]);
      InsertHas(x, s[1..]);
      InsertDescends(x, s[1..]);
      hide Insert;
      forall i, j | 0 <= i < j < |r| ensures r[i].edit.offset >= r[j].edit.offset {
        assert r[j] == rest[j - 1] && rest[j - 1] in rest;
        assert i > 0 ==> r[i] == rest[i - 1];
      }
    }
  }

  lemma {:induction false} InsertDistinct(x: PinEdit, s: seq<PinEdit>)
    requires DistinctTargets([x] + s)
    ensures DistinctTargets(Insert(x, s))
  {
    var r := Insert(x, s);
    if s != [] && x.edit.offset < s[0].edit.offset {
      var rest := Insert(x, s[1..]);
      InsertHas(x, s[1..]);
      WithoutSecond(x, s);
      InsertDistinct(x, s[1..]);
      hide Insert;
      forall y | y in rest ensures y.target != s[0].target { DifferentTarget(x, s, y); }
      forall i, j | 0 <= i < j < |r| ensures r[i].target != r[j].target {
        assert r[j] == rest[j - 1] && rest[j - 1] in rest;
        assert i > 0 ==> r[i] == rest[i - 1];
      }
    }
  }

  lemma WithoutSecond(x: PinEdit, s: seq<PinEdit>)
    requires s != [] && DistinctTargets([x] + s)
    ensures DistinctTargets([x] + s[1..])
  {
    var t, u := [x] + s, [x] + s[1..];
    forall i, j | 0 <= i < j < |u| ensures u[i].target != u[j].target {
      assert u[j] == t[j + 1] && u[i] == t[if i == 0 then 0 else i + 1];
    }
  }

  lemma DifferentTarget(x: PinEdit, s: seq<PinEdit>, y: PinEdit)
    requires s != [] && DistinctTargets([x] + s) && (y == x || y in s[1..])
    ensures y.target != s[0].target
  {
    var t := [x] + s;
    assert t[1] == s[0];
    if y == x {
      assert t[0].target != t[1].target;
    } else {
      var k :| 0 <= k < |s[1..]| && s[1..][k] == y;
      assert t[k + 2] == y && t[1].target != t[k + 2].target;
    }
  }

  lemma {:induction false} SortedKeeps(s: seq<PinEdit>)
    ensures forall y :: y in Sorted(s) <==> y in s
    ensures Descending(Sorted(s))
    ensures DistinctTargets(s) ==> DistinctTargets(Sorted(s))
  {
    if s != [] {
      SortedKeeps(s[1..]);
      InsertHas(s[0], Sorted(s[1..]));
      InsertDescends(s[0], Sorted(s[1..]));
      assert s == [s[0]] + s[1..];
      if DistinctTargets(s) {
        hide Sorted, Insert;
        TailDistinct(s, Sorted(s[1..]));
        InsertDistinct(s[0], Sorted(s[1..]));
      }
    }
  }

  lemma TailDistinct(s: seq<PinEdit>, t: seq<PinEdit>)
    requires s != [] && DistinctTargets(s) && (forall y :: y in t <==> y in s[1..])
    requires DistinctTargets(s[1..]) ==> DistinctTargets(t)
    ensures DistinctTargets([s[0]] + t)
  {
    var r := [s[0]] + t;
    forall i, j | 0 <= i < j < |s| - 1 ensures s[1..][i].target != s[1..][j].target {
      assert s[i + 1].target != s[j + 1].target;
    }
    forall y | y in t ensures y.target != s[0].target {
      var k :| 0 <= k < |s[1..]| && s[1..][k] == y;
      assert s[k + 1] == y;
    }
    forall i, j | 0 <= i < j < |r| ensures r[i].target != r[j].target {
      assert r[j] == t[j - 1];
      assert i > 0 ==> r[i] == t[i - 1];
    }
  }

  // Applying the plan

  /** The edits still to be applied: each is what executor_edit would compute on the text as it is now, and the
      original text is untouched up to its end. */
  ghost predicate Pending(now: string, text: string, edits: seq<PinEdit>) {
    forall m | 0 <= m < |edits| :: PendingOne(now, text, edits[m])
  }

  ghost predicate PendingOne(now: string, text: string, x: PinEdit) {
    match TargetEdit(now, x.target)
    case None => false
    case Some(e) =>
      && e.start <= e.end <= |now| && e.end <= |text| && now[..e.end] == text[..e.end]
      && x == Recorded(text, x.target, e)
  }

  lemma ReplayOne(now: string, text: string, x: PinEdit, e: Edit)
    requires PendingOne(now, text, x) && TargetEdit(now, x.target) == Some(e)
    ensures e.start <= e.end <= |now| && Replay(Encode(now), x.edit) == Some(Encode(Apply(now, e)))
  {
    hide TargetEdit, Encode, Replay;
    assert now[..e.start] == now[..e.end][..e.start] && text[..e.start] == text[..e.end][..e.start];
    assert now[e.start..e.end] == now[..e.end][e.start..] && text[e.start..e.end] == text[..e.end][e.start..];
    ReplaySplice(now, e.start, e.end, e.replacement);
  }

  lemma StaysPending(now: string, text: string, root: map<Str, Value>, rows: seq<Value>, spans: seq<Slot>,
                     x: PinEdit, y: PinEdit, e: Edit)
    requires IsCatalog(now, root, rows, spans) && GoodTarget(rows, x.target) && GoodTarget(rows, y.target)
    requires x.target != y.target && x.edit.offset >= y.edit.offset
    requires PendingOne(now, text, x) && PendingOne(now, text, y) && TargetEdit(now, x.target) == Some(e)
    ensures e.start <= e.end <= |now| && PendingOne(Apply(now, e), text, y)
    ensures TargetEdit(now, y.target).Some? && TargetEdit(now, y.target).value.end < e.start
  {
    hide TargetEdit, Encode, IsCatalog, GoodTarget, Splice, EntrySpans;
    var e', r := Stable(now, root, rows, spans, x.target, y.target);
    if e.start < r.start {
      OffsetGrows(text, e.start, r.start);
    }
    assert r.end < e.start;
    PrefixKept(now, e, 0, r.end);
    assert now[0..r.end] == now[..r.end] && Apply(now, e)[0..r.end] == Apply(now, e)[..r.end];
  }

  /** Applying the first pending edit: its old bytes are there, and the rest is still pending. */
  lemma ApplyFirst(now: string, text: string, root: map<Str, Value>, rows: seq<Value>, spans: seq<Slot>,
                   edits: seq<PinEdit>)
    returns (e: Edit)
    requires IsCatalog(now, root, rows, spans) && Pending(now, text, edits) && edits != []
    requires forall x | x in edits :: GoodTarget(rows, x.target)
    requires Descending(edits) && DistinctTargets(edits)
    ensures TargetEdit(now, edits[0].target) == Some(e) && e.start <= e.end <= |now|
    ensures Replay(Encode(now), edits[0].edit) == Some(Encode(Apply(now, e)))
    ensures Pending(Apply(now, e), text, edits[1..])
  {
    hide TargetEdit, Encode, IsCatalog, GoodTarget, Splice, EntrySpans, PendingOne, Replay;
    assert PendingOne(now, text, edits[0]);
    assert TargetEdit(now, edits[0].target).Some? by { PendingHas(now, text, edits[0]); }
    e := TargetEdit(now, edits[0].target).value;
    ReplayOne(now, text, edits[0], e);
    forall m | 0 <= m < |edits| - 1 ensures PendingOne(Apply(now, e), text, edits[1..][m]) {
      StaysPending(now, text, root, rows, spans, edits[0], edits[m + 1], e);
    }
  }

  lemma PendingHas(now: string, text: string, x: PinEdit)
    requires PendingOne(now, text, x)
    ensures TargetEdit(now, x.target).Some?
  {
    hide TargetEdit;
  }

  // The bytes outside the selected entries

  /** What remains of the text when the entries at these indices are cut out. */
  ghost function Outside(text: string, spans: seq<Slot>, order: seq<nat>, from: nat): string
    requires from <= |text|
    decreases |order|
  {
    if order == [] then text[from..]
    else if order[0] < |spans| && from <= spans[order[0]].start <= spans[order[0]].end <= |text| then
      text[from..spans[order[0]].start] + Outside(text, spans, order[1..], spans[order[0]].end)
    else ""
  }

  ghost predicate Ascending(order: seq<nat>, n: nat) {
    && (forall i, j | 0 <= i < j < |order| :: order[i] < order[j])
    && (forall i | 0 <= i < |order| :: order[i] < n)
  }

  lemma SameTails(x: string, y: string, a: nat, b: nat, k: nat)
    requires a + k <= |x| && b + k <= |y| && x[a..] == y[b..]
    ensures x[a..a + k] == y[b..b + k] && x[a + k..] == y[b + k..]
  {
    assert x[a..a + k] == x[a..][..k] && y[b..b + k] == y[b..][..k];
    assert x[a + k..] == x[a..][k..] && y[b + k..] == y[b..][k..];
  }

  lemma OutsideStep(text: string, spans: seq<Slot>, order: seq<nat>, from: nat)
    requires order != [] && order[0] < |spans| && from <= spans[order[0]].start <= spans[order[0]].end <= |text|
    ensures Outside(text, spans, order, from)
         == text[from..spans[order[0]].start] + Outside(text, spans, order[1..], spans[order[0]].end)
  {
  }

  lemma SpanAt(spans: seq<Slot>, n: nat, order: seq<nat>)
    requires Ordered(spans, n) && Ascending(order, |spans|) && order != []
    ensures order[0] < |spans| && spans[order[0]].start < spans[order[0]].end < n
    ensures |order| > 1 ==> order[1] < |spans|
  {
  }

  lemma OutsideNothing(text: string, spans: seq<Slot>, from: nat)
    requires from <= |text|
    ensures Outside(text, spans, [], from) == text[from..]
  {
  }

  /** Cutting the next entry out of two texts that go on alike. */
  lemma OutsideJoin(text: string, text': string, spans: seq<Slot>, spans': seq<Slot>, order: seq<nat>, from: nat,
                    at: nat)
    requires order != [] && order[0] < |spans| && order[0] < |spans'|
    requires from <= spans[order[0]].start <= spans[order[0]].end <= |text|
    requires at <= spans'[order[0]].start <= spans'[order[0]].end <= |text'|
    requires text'[at..spans'[order[0]].start] == text[from..spans[order[0]].start]
    requires Outside(text', spans', order[1..], spans'[order[0]].end)
             == Outside(text, spans, order[1..], spans[order[0]].end)
    ensures Outside(text', spans', order, at) == Outside(text, spans, order, from)
  {
    hide Outside;
    OutsideStep(text, spans, order, from);
    OutsideStep(text', spans', order, at);
  }

  /** Positions after an edited entry have moved with the text. */
  lemma {:induction false} OutsideMoved(text: string, text': string, spans: seq<Slot>, spans': seq<Slot>, row: nat,
                                        d: int, order: seq<nat>, from: nat, at: nat)
    requires |spans'| == |spans| && Ordered(spans, |text|) && Ascending(order, |spans|) && row < |spans|
    requires from <= |text| && at == from + d <= |text'| && |text'| == |text| + d
    requires text'[at..] == text[from..]
    requires forall j | row < j < |spans| :: Moved(spans[j], spans'[j], d)
    requires order != [] ==> row < order[0] && from <= spans[order[0]].start
    ensures Outside(text', spans', order, at) == Outside(text, spans, order, from)
    decreases |order|
  {
    hide Outside, Ordered, Ascending;
    if order == [] {
      OutsideNothing(text, spans, from);
      OutsideNothing(text', spans', at);
    } else {
      var o := order[0];
      SpanAt(spans, |text|, order);
      assert Moved(spans[o], spans'[o], d);
      var s, n := spans[o].start, spans[o].end;
      SameTails(text, text', from, at, s - from);
      SameTails(text, text', from, at, n - from);
      NextEntry(spans, |text|, order);
      OutsideMoved(text, text', spans, spans', row, d, order[1..], n, spans'[o].end);
      OutsideJoin(text, text', spans, spans', order, from, at);
    }
  }

  /** The order of the entries still to be cut out once the first one is. */
  lemma NextEntry(spans: seq<Slot>, n: nat, order: seq<nat>)
    requires Ordered(spans, n) && Ascending(order, |spans|) && order != []
    ensures Ascending(order[1..], |spans|)
    ensures |order| > 1 ==> order[0] < order[1] && spans[order[0]].end < spans[order[1]].start
  {
    forall i, j | 0 <= i < j < |order| - 1 ensures order[1..][i] < order[1..][j] { assert order[i + 1] < order[j + 1]; }
    if |order| > 1 { assert order[0] < order[1]; }
  }

  lemma ReplacedAfter(x: seq<Slot>, y: seq<Slot>, i: nat, len: nat, v: Value)
    requires i < |x| && Replaced(x, y, i, len, v)
    ensures |y| == |x| && y[i].start == x[i].start && y[i].end == x[i].start + len
    ensures forall j | i < j < |x| :: Moved(x[j], y[j], len - (x[i].end - x[i].start))
  {
  }

  lemma TextAfter(text: string, e: Edit, n: nat)
    requires e.start <= e.end <= n <= |text|
    ensures |Apply(text, e)| == |text| + |e.replacement| - (e.end - e.start)
    ensures Apply(text, e)[n + |e.replacement| - (e.end - e.start)..] == text[n..]
  {
    hide Splice;
    SpliceAfter(text, e.start, e.end, e.replacement, n - e.end);
  }

  /** The edited entry itself: the text before it and the text after it are as they were. */
  lemma OutsideEdited(text: string, e: Edit, spans: seq<Slot>, spans': seq<Slot>, row: nat, len: nat, v: Value,
                      order: seq<nat>, from: nat)
    requires Ordered(spans, |text|) && Ascending(order, |spans|) && order != [] && row == order[0] < |spans|
    requires spans[row].start < e.start <= e.end < spans[row].end <= |text|
    requires len == spans[row].end - spans[row].start + |e.replacement| - (e.end - e.start)
    requires Replaced(spans, spans', row, len, v) && from <= spans[row].start
    ensures Outside(Apply(text, e), spans', order, from) == Outside(text, spans, order, from)
  {
    hide Outside, Splice, Ascending, Replaced, Ordered, Apply, Moved;
    var text' := Apply(text, e);
    var d := |e.replacement| - (e.end - e.start);
    var s, n := spans[row].start, spans[row].end;
    TextAfter(text, e, n);
    ReplacedAfter(spans, spans', row, len, v);
    PrefixKept(text, e, from, s);
    NextEntry(spans, |text|, order);
    OutsideMoved(text, text', spans, spans', row, d, order[1..], n, n + d);
    OutsideStep(text, spans, order, from);
    OutsideStep(text', spans', order, from);
  }

  /** Editing one of the entries leaves the bytes outside the entries as they were. */
  lemma {:induction false} OutsideKept(text: string, e: Edit, spans: seq<Slot>, spans': seq<Slot>, row: nat, len: nat,
                                       v: Value, order: seq<nat>, from: nat)
    requires Ordered(spans, |text|) && Ascending(order, |spans|) && row < |spans| && row in order
    requires spans[row].start < e.start <= e.end < spans[row].end <= |text|
    requires len == spans[row].end - spans[row].start + |e.replacement| - (e.end - e.start)
    requires Replaced(spans, spans', row, len, v) && from <= spans[order[0]].start
    ensures Outside(Apply(text, e), spans', order, from) == Outside(text, spans, order, from)
    decreases |order|
  {
    hide Outside, Splice, Replaced;
    var o := order[0];
    if o == row {
      OutsideEdited(text, e, spans, spans', row, len, v, order, from);
    } else {
      var k :| 0 <= k < |order| && order[k] == row;
      assert o < row && order[1..][k - 1] == row;
      NextEntry(spans, |text|, order);
      assert spans[o].end < spans[row].start;
      ReplacedBefore(spans, spans', row, len, v, o);
      PrefixKept(text, e, from, spans[o].start);
      PrefixKept(text, e, from, spans[o].end);
      OutsideKept(text, e, spans, spans', row, len, v, order[1..], spans[o].end);
      OutsideStep(text, spans, order, from);
      OutsideStep(Apply(text, e), spans', order, from);
    }
  }
}
