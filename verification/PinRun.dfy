/** The parts shared by the two batched pins: reading the entry spans, cutting the entries out of a text, and
    applying recorded edits to the raw bytes. */
module PinRun {
  import opened Json
  import opened JsonFacts
  import opened JsonEdit
  import opened JsonLayout
  import opened FieldScan
  import opened FieldSetting
  import opened ExecutorPin
  import opened CatalogText
  import opened PinPlan
  import opened PinBatch
  import opened Utf8

  // Reading the array

  lemma ElementHere(text: string, pos: nat, done: seq<Slot>) returns (here: Slot, next: nat)
    requires pos < |text| && text[pos] != ']' && Body(text[pos..], false, true).Ok?
    ensures ParseValue(text[pos..]).Ok?
    ensures here == Slot([], pos, pos + ParseValue(text[pos..]).used, ParseValue(text[pos..]).value)
    ensures pos < here.end <= next < |text| && next == here.end + Skip(text[here.end..])
    ensures text[next] == ']' || text[next] == ','
    ensures text[next] == ']' ==> Prepend(done, Body(text[pos..], false, true), pos) == Ok(done + [here], next + 1)
    ensures text[next] == ',' ==>
              Prepend(done, Body(text[pos..], false, true), pos) == AfterComma(text, next, done + [here])
  {
    hide OneSlot, Slots, Skip, ParseValue, Prepend, Body, More;
    var s := text[pos..];
    OpenBody(s);
    SlotsShape(s, false, true);
    var Ok(slot, c) := OneSlot(s, false);
    ElementParts(s, slot, c);
    here, next := Slot([], pos, pos + slot.end, slot.value), pos + c;
    TailOf(text, pos, slot.end);
    TailOf(text, pos, c);
    assert text[pos + c] == s[c];
    if s[c] == ']' {
      SlotsLast(s, false, true, slot, c);
      LastSlot(done, slot, c, pos);
    } else {
      TailOf(text, pos, c + 1);
      var d := c + 1 + Skip(s[c + 1..]);
      SlotsMore(s, false, true, slot, c, d);
      PrependTwice(done, slot, More(s[d..], false, true), d, pos);
      TailOf(text, pos, d);
      LaxMore(s[d..]);
    }
  }

  /** The rest of an array after the comma at `next`. */
  ghost function AfterComma(text: string, next: nat, done: seq<Slot>): Parsed<seq<Slot>>
    requires next < |text|
  {
    var pos := next + 1 + Skip(text[next + 1..]);
    Prepend(done, Body(text[pos..], false, true), pos)
  }

  lemma OpenBody(s: string)
    requires s != [] && s[0] != ']'
    ensures Body(s, false, true) == Slots(s, false, true)
  {
    hide Slots;
  }

  lemma LaxMore(s: string)
    ensures More(s, false, true) == Body(s, false, true)
  {
    hide Body;
  }

  lemma ElementParts(s: string, slot: Slot, c: nat)
    requires OneSlot(s, false) == Ok(slot, c)
    ensures ParseValue(s).Ok? && slot == Slot([], 0, ParseValue(s).used, ParseValue(s).value)
    ensures c == slot.end + Skip(s[slot.end..])
  {
    hide ParseValue, Skip;
    assert s[0..] == s;
  }

  /** Where the array of a catalog opens, and that the scanner can read it from there. */
  lemma ServicesSpan(text: string, root: map<Str, Value>, rows: seq<Value>) returns (at: nat)
    requires Rooted(text, root, rows)
    ensures Scan(text, 0, true).Ok? && SERVICES in Spans(Scan(text, 0, true).value)
    ensures Spans(Scan(text, 0, true).value)[SERVICES].start == at < |text|
    ensures EntrySpans(text).Ok? && ArrayAt(text, at) == Ok(EntrySpans(text).value, EntrySpans(text).used + 1)
  {
    hide Laid, Skip, Fields, Find, Items, UnitsOf, Shift, Scan, Layered, EntrySpans, ArrayAt, UniqueKeys, Spans, Rooted;
    var l := FindLayers(text, root, rows);
    LayersArray(text, root, rows, l);
    LayersSpans(text, root, rows, l);
    at := l.A();
    ArrayScan(text, at);
  }

  /** The elements of the array that opens at a position, found from just after its bracket. */
  ghost function ArrayAt(text: string, at: nat): Parsed<seq<Slot>>
    requires at < |text|
  {
    var a := at + 1 + Skip(text[at + 1..]);
    Prepend([], Body(text[a..], false, true), a)
  }

  lemma ArrayScan(text: string, at: nat)
    requires at < |text| && text[at] == '[' && Scan(text, at, false).Ok?
    ensures ArrayAt(text, at) == Ok(Scan(text, at, false).value, Scan(text, at, false).used + 1)
  {
    hide Skip, Body, Prepend;
    assert text[at..][0] == '[';
    SkipIs(text[at..], 0);
    PrependUsed(text[at + 1 + Skip(text[at + 1..])..], at + 1 + Skip(text[at + 1..]));
  }

  lemma PrependUsed(s: string, d: nat)
    ensures Prepend([], Body(s, false, true), d).Ok? ==> Prepend([], Body(s, false, true), d).used > 0
  {
    hide Body;
  }

  lemma LayersArray(text: string, root: map<Str, Value>, rows: seq<Value>, l: Layers)
    requires Layered(text, root, rows, l)
    ensures l.k < |l.slots| && l.A() < |text| && text[l.A()] == '['
    ensures Scan(text, 0, true).Ok? && SERVICES in Spans(Scan(text, 0, true).value)
    ensures Spans(Scan(text, 0, true).value)[SERVICES].start == l.A()
    ensures Scan(text, l.A(), false).Ok? && EntrySpans(text) == Scan(text, l.A(), false)
  {
    hide Laid, Skip, Fields, Find, Items, UnitsOf, Shift, Scan, UniqueKeys, Spans;
    ScanDocument(text, l.p, l.q, l.slots);
    LaidOpen(text[l.A()..l.B()], false, l.elems);
    assert text[l.A()] == text[l.A()..l.B()][0];
    ScanLaid(text, l.A(), l.B(), false, l.elems);
    LayersSpans(text, root, rows, l);
    FindShift(l.slots, l.p, SERVICES);
    ShiftAt(l.slots, l.p, l.k);
    ScanUnique(text, 0);
    SpansFind(Shift(l.slots, l.p), SERVICES);
  }

  lemma ScanUnique(text: string, start: nat)
    requires start <= |text| && Scan(text, start, true).Ok?
    ensures UniqueKeys(Scan(text, start, true).value)
  {
    hide UniqueKeys, Skip, Body, Prepend;
  }

  /** The dictionary of the scanner agrees with the list of members. */
  lemma SpansFind(slots: seq<Slot>, name: Str)
    requires UniqueKeys(slots) && Find(slots, name) < |slots|
    ensures name in Spans(slots)
    ensures Spans(slots)[name] == Span(slots[Find(slots, name)].start, slots[Find(slots, name)].end)
  {
    hide UniqueKeys, Spans;
    SpansKeys(slots);
    assert slots[Find(slots, name)].key == name;
  }

  /** entry_spans: on a catalog the decoder accepted it never raises, and finds the entries. */
  method ReadEntrySpans(text: string, ghost root: map<Str, Value>, ghost rows: seq<Value>) returns (spans: seq<Slot>)
    requires Rooted(text, root, rows)
    ensures IsCatalog(text, root, rows, spans)
  {
    hide ParseValue, Skip, Slots, Body, Prepend, Scan, Entries, Rooted, Find, Spans, UnitsOf, EntrySpans;
    CatalogOf(text, root, rows);
    ghost var at := ServicesSpan(text, root, rows);
    var fields := ObjectFields(text, 0);
    var services := fields.value[SERVICES].start;
    ghost var all := ArrayAt(text, at);
    var pos := SkipFrom(text, services + 1);
    spans := [];
    ReadableOn(text, pos, spans, all);
    while text[pos] != ']'
      invariant pos < |text| && all.Ok?
      invariant Prepend(spans, Body(text[pos..], false, true), pos) == all
      decreases |text| - pos
    {
      PrependFails(spans, Body(text[pos..], false, true), pos);
      ghost var here, sep := ElementHere(text, pos, spans);
      var value := ParseValue(text[pos..]);
      var end := pos + value.used;
      var next := SkipFrom(text, end);
      spans := spans + [Slot([], pos, end, value.value)];
      if text[next] == ']' { return; }
      pos := SkipFrom(text, next + 1);
      ReadableOn(text, pos, spans, all);
    }
    ClosedArray(text[pos..]);
    EmptyTail(spans, pos);
  }

  lemma ReadableOn(text: string, pos: nat, spans: seq<Slot>, all: Parsed<seq<Slot>>)
    requires pos <= |text| && all.Ok? && Prepend(spans, Body(text[pos..], false, true), pos) == all
    ensures pos < |text|
  {
    hide Slots;
    EmptyBodyFails(text[pos..]);
  }

  lemma EmptyBodyFails(s: string)
    ensures s == [] ==> Body(s, false, true).Fail?
  {
    hide Skip;
  }

  lemma ClosedArray(s: string)
    requires s != [] && s[0] == ']'
    ensures Body(s, false, true) == Ok([], 1)
  {
    hide Slots;
  }

  // Cutting the entries out

  /** sorted(indices). */
  function InOrder(indices: set<nat>, from: nat, n: nat): seq<nat>
    decreases n - from
  {
    if from >= n then []
    else if from in indices then [from] + InOrder(indices, from + 1, n)
    else InOrder(indices, from + 1, n)
  }

  lemma {:induction false} InOrderIs(indices: set<nat>, from: nat, n: nat)
    ensures Ascending(InOrder(indices, from, n), n)
    ensures forall i :: i in InOrder(indices, from, n) <==> from <= i < n && i in indices
    decreases n - from
  {
    if from < n {
      InOrderIs(indices, from + 1, n);
      var rest := InOrder(indices, from + 1, n);
      forall i | 0 <= i < |rest| ensures from < rest[i] { assert rest[i] in rest; }
    }
  }

  /** outside_entries: the bytes of the text with the selected entries cut out. */
  method OutsideEntries(text: string, spans: seq<Slot>, indices: set<nat>) returns (bytes: seq<Byte>)
    requires Ordered(spans, |text|)
    ensures bytes == Encode(Outside(text, spans, InOrder(indices, 0, |spans|), 0))
  {
    hide Outside, Encode, InOrder, Ordered;
    var order := InOrder(indices, 0, |spans|);
    InOrderIs(indices, 0, |spans|);
    var parts: string, end: nat := "", 0;
    assert order[0..] == order;
    for k := 0 to |order|
      invariant end <= |text| && Ascending(order[k..], |spans|)
      invariant k < |order| ==> end <= spans[order[k]].start
      invariant parts + Outside(text, spans, order[k..], end) == Outside(text, spans, order, 0)
    {
      var rest := order[k..];
      OrderedAt(spans, |text|, rest[0]);
      NextEntry(spans, |text|, rest);
      OutsideStep(text, spans, rest, end);
      assert rest[1..] == order[k + 1..];
      parts, end := parts + text[end..spans[order[k]].start], spans[order[k]].end;
    }
    OutsideNothing(text, spans, end);
    return Encode(parts + text[end..]);
  }

  lemma OrderedAt(spans: seq<Slot>, n: nat, i: nat)
    requires Ordered(spans, n) && i < |spans|
    ensures spans[i].start < spans[i].end < n
  {
  }

  // Applying the edits

  /** Replaying recorded edits one after the other, each on the bytes the one before it left. */
  ghost function ReplayAll(raw: seq<Byte>, edits: seq<PinEdit>): Option<seq<Byte>>
    decreases |edits|
  {
    if edits == [] then Some(raw)
    else
      match Replay(raw, edits[0].edit)
      case None => None
      case Some(next) => ReplayAll(next, edits[1..])
  }

  ghost function TargetsOf(edits: seq<PinEdit>): set<Target> { set x | x in edits :: x.target }

  /** Part-way through a batch: the text now is the catalog with the targets `done` pinned, the edits that remain
      are still right on it, and nothing outside the selected entries has changed. */
  ghost predicate Applied(text: string, spans: seq<Slot>, root: map<Str, Value>, rows: seq<Value>, order: seq<nat>,
                          now: string, spans': seq<Slot>, rows': seq<Value>, done: set<Target>, rest: seq<PinEdit>) {
    && IsCatalog(now, root[SERVICES := Array(rows')], rows', spans')
    && Pinned(rows, done, rows')
    && Pending(now, text, rest)
    && (forall x | x in rest :: GoodTarget(rows, x.target) && x.target.row in order && x.target !in done)
    && Descending(rest) && DistinctTargets(rest)
    && Ascending(order, |spans'|)
    && Outside(now, spans', order, 0) == Outside(text, spans, order, 0)
  }

  lemma GoodStays(rows: seq<Value>, done: set<Target>, rows': seq<Value>, t: Target)
    requires Pinned(rows, done, rows') && GoodTarget(rows, t)
    ensures GoodTarget(rows', t)
  {
    hide GoodPin, PinnedRow, PinField;
    RowStaysGood(rows[t.row], FieldsAt(done, t.row), t.field);
  }

  lemma RestKeeps(rest: seq<PinEdit>)
    requires rest != [] && Descending(rest) && DistinctTargets(rest)
    ensures Descending(rest[1..]) && DistinctTargets(rest[1..])
    ensures forall x | x in rest[1..] :: x in rest && x.target != rest[0].target
  {
    forall x | x in rest[1..] ensures x in rest && x.target != rest[0].target {
      var k :| 0 <= k < |rest| - 1 && rest[1..][k] == x;
      assert rest[k + 1] == x;
    }
  }

  function PinnedOnce(rows: seq<Value>, t: Target): seq<Value>
    requires GoodTarget(rows, t)
  {
    rows[t.row := PinRow(rows[t.row], t.field)]
  }

  /** What one edit does to the text: its row is pinned, and what lies outside the entries stays. */
  lemma StepText(now: string, root: map<Str, Value>, rows: seq<Value>, spans: seq<Slot>, order: seq<nat>, t: Target)
    returns (e: Edit, spans': seq<Slot>)
    requires IsCatalog(now, root, rows, spans) && GoodTarget(rows, t) && Ascending(order, |spans|) && t.row in order
    ensures TargetEdit(now, t) == Some(e) && e.start <= e.end <= |now|
    ensures IsCatalog(Apply(now, e), root[SERVICES := Array(PinnedOnce(rows, t))], PinnedOnce(rows, t), spans')
    ensures |spans'| == |spans| && Outside(Apply(now, e), spans', order, 0) == Outside(now, spans, order, 0)
  {
    hide IsCatalog, Outside, PinRow, TargetEdit, Replaced, Splice, GoodPin, PinField, Ascending;
    var len;
    e, spans', len := ApplyTarget(now, root, rows, spans, t);
    CatalogOrdered(now, root, rows, spans);
    FirstCut(order, spans, t.row);
    OutsideKept(now, e, spans, spans', t.row, len, PinRow(rows[t.row], t.field), order, 0);
    ReplacedAfter(spans, spans', t.row, len, PinRow(rows[t.row], t.field));
  }

  /** One step of the apply loop: the old bytes are found, and the run goes on from the spliced text. */
  lemma ApplyStep(text: string, spans: seq<Slot>, root: map<Str, Value>, rows: seq<Value>, order: seq<nat>,
                  now: string, spans': seq<Slot>, rows': seq<Value>, done: set<Target>, rest: seq<PinEdit>)
    returns (next: string, spans'': seq<Slot>, rows'': seq<Value>)
    requires Applied(text, spans, root, rows, order, now, spans', rows', done, rest) && rest != []
    ensures Replay(Encode(now), rest[0].edit) == Some(Encode(next))
    ensures Applied(text, spans, root, rows, order, next, spans'', rows'', done + {rest[0].target}, rest[1..])
  {
    hide IsCatalog, Pinned, Pending, Outside, Replay, Encode, PinRow, TargetEdit, Splice, GoodTarget, Ascending, Apply,
         Descending, DistinctTargets;
    var t := rest[0].target;
    assert rest[0] in rest;
    forall x | x in rest ensures GoodTarget(rows', x.target) { GoodStays(rows, done, rows', x.target); }
    var root' := root[SERVICES := Array(rows')];
    var e := ApplyFirst(now, text, root', rows', spans', rest);
    var e';
    e', spans'' := StepText(now, root', rows', spans', order, t);
    next, rows'' := Apply(now, e), PinnedOnce(rows', t);
    assert root'[SERVICES := Array(rows'')] == root[SERVICES := Array(rows'')];
    PinOneMore(rows, done, rows', t);
    RestKeeps(rest);
  }

  lemma CatalogOrdered(text: string, root: map<Str, Value>, rows: seq<Value>, spans: seq<Slot>)
    requires IsCatalog(text, root, rows, spans)
    ensures Ordered(spans, |text|) && |spans| == |rows|
    ensures EntrySpans(text).Ok? && EntrySpans(text).value == spans
  {
    hide Rooted, EntrySpans;
    EntriesOrdered(text, rows, spans);
  }

  lemma FirstCut(order: seq<nat>, spans: seq<Slot>, row: nat)
    requires Ascending(order, |spans|) && row in order
    ensures order != [] && order[0] < |spans| && row < |spans|
  {
  }

  /** The apply loop: the check of the old bytes never fails. */
  method ApplyEdits(raw: seq<Byte>, edits: seq<PinEdit>, ghost text: string, ghost spans: seq<Slot>,
                    ghost root: map<Str, Value>, ghost rows: seq<Value>, ghost order: seq<nat>)
    returns (ok: bool, candidate: seq<Byte>, ghost after: string, ghost spans': seq<Slot>, ghost rows': seq<Value>)
    requires raw == Encode(text) && Applied(text, spans, root, rows, order, text, spans, rows, {}, edits)
    ensures ok && candidate == Encode(after) && ReplayAll(raw, edits) == Some(candidate)
    ensures Applied(text, spans, root, rows, order, after, spans', rows', TargetsOf(edits), [])
  {
    hide Applied, Encode, Replay, ReplayAll;
    candidate := raw;
    after, spans', rows' := text, spans, rows;
    assert edits[0..] == edits && TargetsOf(edits[..0]) == {};
    for k := 0 to |edits|
      invariant candidate == Encode(after) && ReplayAll(candidate, edits[k..]) == ReplayAll(raw, edits)
      invariant Applied(text, spans, root, rows, order, after, spans', rows', TargetsOf(edits[..k]), edits[k..])
    {
      after, spans', rows' :=
        ApplyStep(text, spans, root, rows, order, after, spans', rows', TargetsOf(edits[..k]), edits[k..]);
      var e := edits[k].edit;
      ReplayHead(candidate, edits[k..]);
      assert edits[k..][1..] == edits[k + 1..];
      assert TargetsOf(edits[..k]) + {edits[k].target} == TargetsOf(edits[..k + 1]) by {
        assert edits[..k + 1] == edits[..k] + [edits[k]];
      }
      var found := Replay(candidate, e);
      if found.None? { return false, candidate, after, spans', rows'; }
      candidate := found.value;
    }
    ok := true;
    assert edits[..|edits|] == edits && edits[|edits|..] == [];
    ReplayNothing(candidate);
  }

  lemma ReplayHead(raw: seq<Byte>, edits: seq<PinEdit>)
    requires edits != [] && Replay(raw, edits[0].edit).Some?
    ensures ReplayAll(raw, edits) == ReplayAll(Replay(raw, edits[0].edit).value, edits[1..])
  {
  }

  lemma ReplayNothing(raw: seq<Byte>)
    ensures ReplayAll(raw, []) == Some(raw)
  {
  }

  // The batch as one simultaneous replacement

  /** Descending edits that do not touch, each finding its old bytes. */
  ghost predicate Apart(raw: seq<Byte>, edits: seq<PinEdit>) {
    && (forall i | 0 <= i < |edits| :: Replay(raw, edits[i].edit).Some?)
    && (forall i, j | 0 <= i < j < |edits| :: Before(edits[j].edit, edits[i].edit))
  }

  predicate Before(x: ByteEdit, y: ByteEdit) { x.offset + |x.old_utf8| < y.offset }

  /** All the replacements made at once in the first `upto` bytes, every offset taken in the original bytes. */
  ghost function Simultaneous(raw: seq<Byte>, edits: seq<PinEdit>, upto: nat): seq<Byte>
    requires upto <= |raw|
    decreases |edits|
  {
    if edits == [] then raw[..upto]
    else
      var e := edits[0].edit;
      if e.offset + |e.old_utf8| <= upto then
        Simultaneous(raw, edits[1..], e.offset) + e.new_utf8 + raw[e.offset + |e.old_utf8|..upto]
      else []
  }

  lemma ReplayBelow(raw: seq<Byte>, now: seq<Byte>, n: nat, e: ByteEdit)
    requires n <= |raw| && n <= |now| && raw[..n] == now[..n] && e.offset + |e.old_utf8| <= n
    ensures Replay(raw, e).Some? <==> Replay(now, e).Some?
  {
    var a, b := e.offset, e.offset + |e.old_utf8|;
    assert raw[a..b] == raw[..n][a..b] && now[a..b] == now[..n][a..b];
  }

  lemma ApartRest(raw: seq<Byte>, edits: seq<PinEdit>)
    requires edits != [] && Apart(raw, edits)
    ensures Apart(raw, edits[1..])
    ensures forall i | 0 <= i < |edits| - 1 :: Before(edits[1..][i].edit, edits[0].edit)
  {
    hide Replay, Before;
  }

  /** Replaying edits that stand apart, last one first, makes them all at once. */
  lemma {:induction false} ReplayApart(raw: seq<Byte>, edits: seq<PinEdit>, now: seq<Byte>, n: nat)
    requires Apart(raw, edits) && n <= |raw| && n <= |now| && raw[..n] == now[..n]
    requires edits != [] ==> edits[0].edit.offset + |edits[0].edit.old_utf8| <= n
    ensures ReplayAll(now, edits) == Some(Simultaneous(raw, edits, n) + now[n..])
    decreases |edits|
  {
    if edits == [] {
      assert now == now[..n] + now[n..];
    } else {
      var e := edits[0].edit;
      var a, b := e.offset, e.offset + |e.old_utf8|;
      ReplayBelow(raw, now, n, e);
      var next := now[..a] + e.new_utf8 + now[b..];
      ApartRest(raw, edits);
      var x := Simultaneous(raw, edits[1..], a);
      ReplacedOnce(raw, now, n, a, b, e.new_utf8, x);
      hide Apart, Before;
      ReplayApart(raw, edits[1..], next, a);
    }
  }

  /** What one replacement below `n` keeps before it and leaves after it. */
  lemma ReplacedOnce(raw: seq<Byte>, now: seq<Byte>, n: nat, a: nat, b: nat, w: seq<Byte>, x: seq<Byte>)
    requires a <= b <= n <= |raw| && n <= |now| && raw[..n] == now[..n]
    ensures var next := now[..a] + w + now[b..];
            |next| >= a && next[..a] == raw[..a] && x + next[a..] == (x + w + raw[b..n]) + now[n..]
  {
    var next := now[..a] + w + now[b..];
    assert raw[..a] == raw[..n][..a] && now[..a] == now[..n][..a] && next[..a] == now[..a];
    assert raw[b..n] == raw[..n][b..] && now[b..n] == now[..n][b..];
    assert now[b..] == now[b..n] + now[n..];
    assert next[a..] == w + now[b..];
    assert x + (w + (raw[b..n] + now[n..])) == (x + w + raw[b..n]) + now[n..];
  }

  /** The edits of a plan stand apart in the original bytes. */
  lemma PlanApart(text: string, root: map<Str, Value>, rows: seq<Value>, spans: seq<Slot>, edits: seq<PinEdit>)
    requires IsCatalog(text, root, rows, spans) && Pending(text, text, edits)
    requires forall x | x in edits :: GoodTarget(rows, x.target)
    requires Descending(edits) && DistinctTargets(edits)
    ensures Apart(Encode(text), edits)
  {
    hide IsCatalog, GoodTarget, Encode, Replay, TargetEdit, PendingOne, Before;
    forall i | 0 <= i < |edits| ensures Replay(Encode(text), edits[i].edit).Some? {
      PendingHas(text, text, edits[i]);
      ReplayOne(text, text, edits[i], TargetEdit(text, edits[i].target).value);
    }
    forall i, j | 0 <= i < j < |edits| ensures Before(edits[j].edit, edits[i].edit) {
      PairApart(text, root, rows, spans, edits[i], edits[j]);
    }
  }

  lemma PairApart(text: string, root: map<Str, Value>, rows: seq<Value>, spans: seq<Slot>, x: PinEdit, y: PinEdit)
    requires IsCatalog(text, root, rows, spans) && GoodTarget(rows, x.target) && GoodTarget(rows, y.target)
    requires x.target != y.target && x.edit.offset >= y.edit.offset
    requires PendingOne(text, text, x) && PendingOne(text, text, y)
    ensures Before(y.edit, x.edit)
  {
    hide IsCatalog, GoodTarget, Encode, TargetEdit, Splice;
    var e, r := TargetEdit(text, x.target).value, TargetEdit(text, y.target).value;
    StaysPending(text, text, root, rows, spans, x, y, e);
    assert text[..r.end] == text[..r.start] + text[r.start..r.end];
    EncodeConcat(text[..r.start], text[r.start..r.end]);
    OffsetGrows(text, r.end, e.start);
  }

  lemma SameEmptiness(a: seq<PinEdit>, b: seq<PinEdit>)
    requires forall x :: x in a <==> x in b
    ensures a == [] <==> b == []
  {
    if a != [] { assert a[0] in b; }
    if b != [] { assert b[0] in a; }
  }

  lemma HighestFirst(raw: seq<Byte>, a: seq<PinEdit>, x: PinEdit)
    requires Apart(raw, a) && x in a
    ensures x == a[0] || Before(x.edit, a[0].edit)
  {
    hide Replay, Before;
  }

  /** Plans with the same edits give the same report and the same candidate, in whatever order they were made. */
  lemma {:induction false} SameEdits(raw: seq<Byte>, a: seq<PinEdit>, b: seq<PinEdit>)
    requires Apart(raw, a) && Apart(raw, b)
    requires forall x :: x in a <==> x in b
    ensures a == b
    decreases |a|
  {
    hide Replay;
    SameEmptiness(a, b);
    if a != [] {
      HighestFirst(raw, a, b[0]);
      HighestFirst(raw, b, a[0]);
      ApartRest(raw, a);
      ApartRest(raw, b);
      forall x ensures x in a[1..] <==> x in b[1..] {
        TailHas(a, x);
        TailHas(b, x);
      }
      SameEdits(raw, a[1..], b[1..]);
      assert a == [a[0]] + a[1..] && b == [b[0]] + b[1..];
    }
  }

  lemma TailHas(a: seq<PinEdit>, x: PinEdit)
    requires a != [] && forall i | 0 <= i < |a| - 1 :: Before(a[1..][i].edit, a[0].edit)
    ensures x in a[1..] <==> x in a && x != a[0]
  {
    if x in a && x != a[0] {
      var k :| 0 <= k < |a| && a[k] == x;
      assert a[1..][k - 1] == x;
    }
  }

  // Making the plan

  /** A plan: exactly one recorded edit for every wanted target, each computed on the original text. */
  ghost predicate Planned(text: string, rows: seq<Value>, indices: set<nat>, wanted: set<Target>, plan: seq<PinEdit>) {
    && (forall t | t in wanted :: GoodTarget(rows, t) && t.row in indices)
    && (forall x | x in plan :: x.target in wanted && PendingOne(text, text, x))
    && (forall t | t in wanted :: t in TargetsOf(plan))
    && DistinctTargets(plan)
  }

  lemma PlanMore(text: string, rows: seq<Value>, indices: set<nat>, wanted: set<Target>, plan: seq<PinEdit>, x: PinEdit)
    requires Planned(text, rows, indices, wanted, plan) && x.target !in wanted
    requires GoodTarget(rows, x.target) && x.target.row in indices && PendingOne(text, text, x)
    ensures Planned(text, rows, indices, wanted + {x.target}, plan + [x])
  {
    hide GoodTarget, PendingOne;
    var longer := plan + [x];
    forall t | t in wanted + {x.target} ensures t in TargetsOf(longer) {
      if t in wanted {
        var y :| y in plan && y.target == t;
        assert y in longer;
      } else {
        assert longer[|plan|] == x;
      }
    }
    forall i, j | 0 <= i < j < |longer| ensures longer[i].target != longer[j].target {
      assert longer[i] in plan;
    }
  }

  lemma EditOfTarget(text: string, root: map<Str, Value>, rows: seq<Value>, spans: seq<Slot>, t: Target)
    requires IsCatalog(text, root, rows, spans) && GoodTarget(rows, t)
    ensures t.row < |spans| && spans[t.row].start <= spans[t.row].end <= |text|
    ensures TargetEdit(text, t)
         == MoveEdit(ExecutorEdit(text[spans[t.row].start..spans[t.row].end], t.field), spans[t.row].start)
    ensures TargetEdit(text, t).Some? && TargetEdit(text, t).value.start <= TargetEdit(text, t).value.end <= |text|
    ensures PendingOne(text, text, Recorded(text, t, TargetEdit(text, t).value))
  {
    hide Rooted, EntrySpans, GoodPin, PinField, ExecutorEdit, TargetEdit, Replaced, Splice, MoveEdit, PendingOne,
         PinRow, Apply, Entries, Encode;
    var e, spans', len := ApplyTarget(text, root, rows, spans, t);
    CatalogOrdered(text, root, rows, spans);
    TargetEditIs(text, spans, t);
    PendingAt(text, t, e);
  }

  lemma PendingAt(text: string, t: Target, e: Edit)
    requires TargetEdit(text, t) == Some(e) && e.start <= e.end <= |text|
    ensures PendingOne(text, text, Recorded(text, t, e))
  {
    hide TargetEdit, Encode;
  }

  /** One pass of the planning loops: the edit of one executor and the change to the expected catalog. */
  method PlanOne(text: string, ghost root: map<Str, Value>, rows: seq<Value>, spans: seq<Slot>, ghost indices: set<nat>,
                 t: Target, plan: seq<PinEdit>, expected: seq<Value>, ghost wanted: set<Target>)
    returns (plan': seq<PinEdit>, expected': seq<Value>)
    requires IsCatalog(text, root, rows, spans) && GoodTarget(rows, t) && t.row in indices && t !in wanted
    requires Planned(text, rows, indices, wanted, plan) && Pinned(rows, wanted, expected)
    ensures Planned(text, rows, indices, wanted + {t}, plan') && Pinned(rows, wanted + {t}, expected')
  {
    hide Planned, Pinned, ExecutorEdit, TargetEdit, PendingOne, IsCatalog, Encode, PinRow, GoodPin;
    EditOfTarget(text, root, rows, spans, t);
    var start, end := spans[t.row].start, spans[t.row].end;
    var e := MoveEdit(ExecutorEdit(text[start..end], t.field), start).value;
    plan' := plan + [Recorded(text, t, e)];
    PlanMore(text, rows, indices, wanted, plan, Recorded(text, t, e));
    GoodStays(rows, wanted, expected, t);
    PinOneMore(rows, wanted, expected, t);
    expected' := PinnedOnce(expected, t);
  }

  lemma NothingPlanned(text: string, rows: seq<Value>, indices: set<nat>)
    ensures Planned(text, rows, indices, {}, []) && Pinned(rows, {}, rows)
  {
    hide PendingOne, GoodTarget;
  }

  // The checked run

  datatype Check = OldBytes | Utf8Bytes | Meaning | OutsideBytes

  datatype Outcome = Prepared(candidate: seq<Byte>, edits: seq<PinEdit>) | Refused | CheckFailed(check: Check)

  /** The rows of a document that is a catalog. */
  ghost function RowsOf(text: string): (rows: seq<Value>)
  {
    match Json.Decode(text)
    case Fail => []
    case Ok(v, _) =>
      if v.Object? && SERVICES in v.fields && v.fields[SERVICES].Array? then v.fields[SERVICES].items else []
  }

  /** What a finished batch delivers. The candidate decodes to the source catalog with exactly the wanted executors
      pinned; the bytes outside the selected entries are the source's; the reported edits, one for each wanted
      executor and each computed on the source, replay to the candidate and amount to one simultaneous splice. */
  ghost predicate PinnedExactly(raw: seq<Byte>, text: string, root: map<Str, Value>, rows: seq<Value>,
                                indices: set<nat>, wanted: set<Target>, candidate: seq<Byte>, edits: seq<PinEdit>,
                                after: string)
  {
    && candidate == Encode(after)
    && Rooted(after, root[SERVICES := Array(RowsOf(after))], RowsOf(after)) && Pinned(rows, wanted, RowsOf(after))
    && EntrySpans(text).Ok? && EntrySpans(after).Ok?
    && Outside(after, EntrySpans(after).value, InOrder(indices, 0, |rows|), 0)
       == Outside(text, EntrySpans(text).value, InOrder(indices, 0, |rows|), 0)
    && TargetsOf(edits) == wanted && DistinctTargets(edits) && Pending(text, text, edits)
    && Apart(raw, edits) && ReplayAll(raw, edits) == Some(candidate) == Some(Simultaneous(raw, edits, |raw|))
  }

  /** The result of a batch depends on the source and the wanted executors alone. */
  lemma OneResult(raw: seq<Byte>, text: string, root: map<Str, Value>, rows: seq<Value>, indices: set<nat>,
                  wanted: set<Target>, c1: seq<Byte>, edits1: seq<PinEdit>, after1: string, c2: seq<Byte>,
                  edits2: seq<PinEdit>, after2: string)
    requires PinnedExactly(raw, text, root, rows, indices, wanted, c1, edits1, after1)
    requires PinnedExactly(raw, text, root, rows, indices, wanted, c2, edits2, after2)
    ensures edits1 == edits2 && c1 == c2
  {
    hide Rooted, Pinned, EntrySpans, Outside, Apart, ReplayAll, Simultaneous, PendingOne, Encode, RowsOf;
    forall x ensures x in edits1 <==> x in edits2 {
      if x in edits1 { SameTarget(text, edits1, edits2, x); }
      if x in edits2 { SameTarget(text, edits2, edits1, x); }
    }
    SameEdits(raw, edits1, edits2);
  }

  lemma SameTarget(text: string, a: seq<PinEdit>, b: seq<PinEdit>, x: PinEdit)
    requires Pending(text, text, a) && Pending(text, text, b) && TargetsOf(a) == TargetsOf(b) && x in a
    ensures x in b
  {
    hide TargetEdit, PendingOne;
    assert x.target in TargetsOf(b);
    var y :| y in b && y.target == x.target;
    SameRecord(text, x, y);
  }

  lemma SameRecord(text: string, x: PinEdit, y: PinEdit)
    requires PendingOne(text, text, x) && PendingOne(text, text, y) && x.target == y.target
    ensures x == y
  {
    hide TargetEdit, Encode;
  }

  lemma ReadyToApply(text: string, root: map<Str, Value>, rows: seq<Value>, spans: seq<Slot>, indices: set<nat>,
                     wanted: set<Target>, plan: seq<PinEdit>, order: seq<nat>)
    requires IsCatalog(text, root, rows, spans) && Planned(text, rows, indices, wanted, plan)
    requires forall i :: i in order <==> i < |rows| && i in indices
    requires Ascending(order, |rows|)
    ensures Applied(text, spans, root, rows, order, text, spans, rows, {}, Sorted(plan))
    ensures TargetsOf(Sorted(plan)) == wanted
    ensures Pending(text, text, Sorted(plan)) && Descending(Sorted(plan)) && DistinctTargets(Sorted(plan))
    ensures forall x | x in Sorted(plan) :: GoodTarget(rows, x.target)
  {
    hide GoodPin, PinField, PendingOne, Descending, DistinctTargets, Ascending, Outside, EntrySpans, Entries, Sorted;
    SortedKeeps(plan);
    assert root[SERVICES := Array(rows)] == root;
    assert Pinned(rows, {}, rows);
    EntriesOrdered(text, rows, spans);
  }

  /** The second half of a batched prepare: sort, apply, and re-check everything. No check can fail; the candidate
      is the catalog with exactly the wanted executors pinned. */
  method ApplyAndCheck(raw: seq<Byte>, text: string, root: map<Str, Value>, rows: seq<Value>, spans: seq<Slot>,
                       indices: set<nat>, plan: seq<PinEdit>, expected: seq<Value>, ghost wanted: set<Target>)
    returns (r: Outcome, ghost after: string)
    requires raw == Encode(text) && IsCatalog(text, root, rows, spans)
    requires Planned(text, rows, indices, wanted, plan) && Pinned(rows, wanted, expected)
    ensures r.Prepared? && PinnedExactly(raw, text, root, rows, indices, wanted, r.candidate, r.edits, after)
  {
    hide Encode, Outside, Sorted, IsCatalog, Planned, Pinned, Json.Decode, Utf8.Decode, ReplayAll, Apart, Simultaneous,
         InOrder, EntrySpans, RowsOf, Rooted, Pending, Descending, DistinctTargets;
    var order := InOrder(indices, 0, |rows|);
    InOrderIs(indices, 0, |rows|);
    CatalogOrdered(text, root, rows, spans);
    ReadyToApply(text, root, rows, spans, indices, wanted, plan, order);
    var edits := Sorted(plan);
    PlanApart(text, root, rows, spans, edits);
    ReplayWhole(raw, edits);
    var ok, candidate;
    ghost var spans', rows';
    ok, candidate, after, spans', rows' := ApplyEdits(raw, edits, text, spans, root, rows, order);
    if !ok { return CheckFailed(OldBytes), after; }
    DecodeEncode(after);
    SamePinned(rows, wanted, rows', expected);
    AppliedEnd(text, spans, root, rows, order, after, spans', expected, wanted);
    var decoded := Utf8.Decode(candidate);
    if decoded.None? { return CheckFailed(Utf8Bytes), after; }
    var value := Json.Decode(decoded.value);
    if value.Fail? || value.value != Object(root[SERVICES := Array(expected)]) { return CheckFailed(Meaning), after; }
    RowsAre(after, root[SERVICES := Array(expected)], expected);
    var newSpans := ReadEntrySpans(decoded.value, root[SERVICES := Array(expected)], expected);
    CatalogOrdered(after, root[SERVICES := Array(expected)], expected, newSpans);
    var before := OutsideEntries(text, spans, indices);
    var now := OutsideEntries(decoded.value, newSpans, indices);
    if before != now { return CheckFailed(OutsideBytes), after; }
    return Prepared(candidate, edits), after;
  }

  lemma RowsAre(text: string, root: map<Str, Value>, rows: seq<Value>)
    requires Rooted(text, root, rows)
    ensures RowsOf(text) == rows
  {
    hide Json.Decode, UnitsOf;
  }

  lemma ReplayWhole(raw: seq<Byte>, edits: seq<PinEdit>)
    requires Apart(raw, edits)
    ensures ReplayAll(raw, edits) == Some(Simultaneous(raw, edits, |raw|))
  {
    hide ReplayAll, Simultaneous;
    if edits != [] { assert Replay(raw, edits[0].edit).Some?; }
    ReplayApart(raw, edits, raw, |raw|);
    assert Simultaneous(raw, edits, |raw|) + raw[|raw|..] == Simultaneous(raw, edits, |raw|);
  }

  lemma SamePinned(rows: seq<Value>, targets: set<Target>, x: seq<Value>, y: seq<Value>)
    requires Pinned(rows, targets, x) && Pinned(rows, targets, y)
    ensures x == y
  {
    hide PinnedRow;
  }

  lemma AppliedEnd(text: string, spans: seq<Slot>, root: map<Str, Value>, rows: seq<Value>, order: seq<nat>,
                   after: string, spans': seq<Slot>, rows': seq<Value>, done: set<Target>)
    requires Applied(text, spans, root, rows, order, after, spans', rows', done, [])
    ensures IsCatalog(after, root[SERVICES := Array(rows')], rows', spans')
    ensures Rooted(after, root[SERVICES := Array(rows')], rows')
    ensures EntrySpans(after).Ok? && EntrySpans(after).value == spans'
    ensures Outside(after, spans', order, 0) == Outside(text, spans, order, 0)
    ensures Json.Decode(after) == Ok(Object(root[SERVICES := Array(rows')]), |after|)
    ensures |rows'| == |rows|
  {
    hide Entries, EntrySpans, Outside, PinnedRow, Pending, Json.Decode;
  }
}
