/** What set_field does to a document: exactly one member is rebound, whatever else the document holds. */
module FieldSetting {
  import opened Json
  import opened JsonFacts
  import opened JsonEdit
  import opened JsonLayout
  import opened FieldScan

  lemma {:induction false} FieldsOf(slots: seq<Slot>)
    ensures forall k :: k in Fields(slots) <==> Find(slots, k) < |slots|
    ensures forall k | k in Fields(slots) :: Fields(slots)[k] == slots[Find(slots, k)].value
  {
    if slots != [] {
      FieldsOf(slots[1..]);
      forall k ensures k in Fields(slots) <==> Find(slots, k) < |slots| {
        assert slots[0].key != k ==> Find(slots, k) == 1 + Find(slots[1..], k);
      }
      forall k | k in Fields(slots) ensures Fields(slots)[k] == slots[Find(slots, k)].value {
        assert slots[0].key != k ==> Find(slots, k) == 1 + Find(slots[1..], k);
      }
    }
  }

  lemma FindUnique(slots: seq<Slot>, i: nat)
    requires i < |slots| && UniqueKeys(slots)
    ensures Find(slots, slots[i].key) == i
  {
    var j := Find(slots, slots[i].key);
    assert j <= i;
  }

  lemma SameFind(x: seq<Slot>, y: seq<Slot>, k: Str)
    requires |x| == |y| && forall j | 0 <= j < |x| :: x[j].key == y[j].key
    ensures Find(x, k) == Find(y, k)
  {
  }

  lemma ReplacedKeys(x: seq<Slot>, y: seq<Slot>, i: nat, len: nat, v: Value)
    requires i < |x| && Replaced(x, y, i, len, v)
    ensures |x| == |y| && y[i].value == v && forall j | 0 <= j < |x| :: x[j].key == y[j].key
    ensures forall j | 0 <= j < |x| :: j != i ==> x[j].value == y[j].value
  {
    forall j | 0 <= j < |x| ensures x[j].key == y[j].key && (j != i ==> x[j].value == y[j].value) {
      if j > i { assert Moved(x[j], y[j], len - (x[i].end - x[i].start)); }
    }
  }

  lemma FieldsReplaced(x: seq<Slot>, y: seq<Slot>, i: nat, len: nat, v: Value)
    requires i < |x| && Replaced(x, y, i, len, v) && UniqueKeys(x)
    ensures Fields(y) == Fields(x)[x[i].key := v]
  {
    ReplacedKeys(x, y, i, len, v);
    FindUnique(x, i);
    SameFields(x, y, i, v);
  }

  lemma SameFields(x: seq<Slot>, y: seq<Slot>, i: nat, v: Value)
    requires i < |x| == |y| && y[i].value == v && Find(x, x[i].key) == i
    requires forall j | 0 <= j < |x| :: x[j].key == y[j].key && (j != i ==> x[j].value == y[j].value)
    ensures Fields(y) == Fields(x)[x[i].key := v]
  {
    hide Fields, Find;
    FieldsOf(x);
    FieldsOf(y);
    forall k ensures Find(x, k) == Find(y, k) { SameFind(x, y, k); }
  }

  lemma {:induction false} FindAppend(x: seq<Slot>, s: Slot, k: Str)
    ensures Find(x + [s], k) == if Find(x, k) < |x| then Find(x, k) else if s.key == k then |x| else |x| + 1
  {
    if x == [] {
      assert x + [s] == [s];
    } else {
      assert (x + [s])[1..] == x[1..] + [s];
      FindAppend(x[1..], s, k);
    }
  }

  lemma FieldsAppended(x: seq<Slot>, s: Slot)
    requires Find(x, s.key) == |x|
    ensures Fields(x + [s]) == Fields(x)[s.key := s.value]
  {
    hide Fields, Find;
    FieldsOf(x);
    FieldsOf(x + [s]);
    forall k
      ensures Find(x + [s], k) == if Find(x, k) < |x| then Find(x, k) else if s.key == k then |x| else |x| + 1
    {
      FindAppend(x, s, k);
    }
  }

  /** The members after set_field are the members before, with one name bound to the new value. */
  lemma FieldSetMeans(t: string, x: seq<Slot>, y: seq<Slot>, name: Str, lit: string, v: Value)
    requires FieldSet(t, x, y, name, lit, v) && UniqueKeys(x)
    ensures Fields(y) == Fields(x)[name := v]
  {
    var i := Find(x, name);
    if i < |x| {
      FieldsReplaced(x, y, i, |lit|, v);
    } else if x == [] {
      assert y == [Added(name, |t| - 1, lit, v)];
    } else {
      FieldsAppended(x, Added(name, x[|x| - 1].end + 2, lit, v));
    }
  }

  /** For the text of an object alone: set_field rebinds one name, and the splice stays inside the braces. */
  lemma SetFieldExact(t: string, m: map<Str, Value>, name: Str, lit: string, v: Value) returns (e: Edit)
    requires Exact(t, Object(m)) && Exact(lit, v)
    ensures FieldEdit(t, name, lit) == Some(e) && 0 < e.start <= e.end < |t|
    ensures Exact(Apply(t, e), Object(m[name := v]))
  {
    hide Exact, Laid, FieldEdit, FieldSet, Fields;
    MeansLaid(t, true, Object(m));
    var slots := Layout(t, true).value;
    var slots';
    e, slots' := SetFieldLaid(t, slots, name, lit, v);
    assert UniqueKeys(slots) by { LaidUnique(t, slots); }
    FieldSetMeans(t, slots, slots', name, lit, v);
    LaidMeans(Apply(t, e), true, slots');
  }

  lemma LaidUnique(t: string, slots: seq<Slot>)
    requires Laid(t, true, slots)
    ensures UniqueKeys(slots)
  {
    hide UniqueKeys, Layout;
  }

  // Whole documents

  lemma SliceOfSlice(text: string, p: nat, q: nat, a: nat, b: nat)
    requires p <= q <= |text| && a <= b <= q - p
    ensures text[p..q][a..b] == text[p + a..p + b]
  {
    var x, y := text[p..q][a..b], text[p + a..p + b];
    assert |x| == |y|;
    forall i | 0 <= i < |x| ensures x[i] == y[i] {
      assert x[i] == text[p..q][a + i] == text[p + (a + i)];
      assert y[i] == text[(p + a) + i];
    }
  }

  /** A document is one value's text between white space. */
  lemma DocumentCore(text: string, v: Value) returns (p: nat, q: nat)
    requires Decode(text) == Ok(v, |text|)
    ensures p == Skip(text) && p < q <= |text| && Exact(text[p..q], v)
    ensures q + Skip(text[q..]) == |text|
  {
    hide ParseValue, Skip;
    p := Skip(text);
    q := p + ParseValue(text[p..]).used;
    OwnText(text, p, v, q - p);
  }

  lemma DocumentAround(text: string, p: nat, q: nat, core: string, v: Value)
    requires p == Skip(text) && p <= q <= |text| && q + Skip(text[q..]) == |text| && Exact(core, v)
    ensures Decode(Splice(text, p, q, core)) == Ok(v, |text| - (q - p) + |core|)
  {
    hide ParseValue, Skip;
    var t := Splice(text, p, q, core);
    LiteralStart(core, v);
    SpliceTail(text, p, q, core, p);
    SpliceAfter(text, p, q, core, 0);
    assert t[p..][..|core|] == core;
    assert t[..p] == text[..p] && t[p] == core[0];
    SkipLocal(text, t);
    if q < |text| {
      SkipFacts(text[q..]);
      assert Ws(text[q..][0]);
      LiteralReads(core, v, text[q..]);
    } else {
      assert core + text[q..] == core;
    }
    assert ParseValue(t[p..]) == Ok(v, |core|);
  }

  /** The scanner reads a document's object as the decoder does, with positions in the document. */
  lemma ScanDocument(text: string, p: nat, q: nat, slots: seq<Slot>)
    requires p == Skip(text) && p < q <= |text| && Laid(text[p..q], true, slots)
    ensures Scan(text, 0, true) == Ok(Shift(slots, p), q - 1)
    ensures Scan(text, 0, true) == Scan(text, p, true)
  {
    hide Laid, Shift, Skip;
    ScanLaid(text, p, q, true, slots);
    LaidOpen(text[p..q], true, slots);
    assert text[p..][0] == text[p..q][0];
    SkipIs(text[p..], 0);
    ScanStart(text, p);
  }

  lemma ScanStart(text: string, p: nat)
    requires p == Skip(text) && Skip(text[p..]) == 0
    ensures Scan(text, 0, true) == Scan(text, p, true)
  {
    hide Skip, Body, Prepend, UniqueKeys;
    assert text[0..] == text;
  }

  lemma {:induction false} FindShift(slots: seq<Slot>, d: nat, name: Str)
    ensures Find(Shift(slots, d), name) == Find(slots, name)
  {
    if slots != [] { FindShift(slots[1..], d, name); }
  }

  lemma {:induction false} MaxEndShift(slots: seq<Slot>, d: nat)
    requires slots != []
    ensures MaxEnd(Shift(slots, d)) == MaxEnd(slots) + d
  {
    if |slots| > 1 { MaxEndShift(slots[1..], d); }
  }

  /** field_edit on a document is field_edit on the object in it, moved. */
  lemma FieldEditDocument(text: string, p: nat, q: nat, slots: seq<Slot>, name: Str, lit: string)
    requires p == Skip(text) && p < q <= |text| && Laid(text[p..q], true, slots)
    ensures FieldEdit(text[p..q], name, lit).Some?
    ensures var e := FieldEdit(text[p..q], name, lit).value;
            FieldEdit(text, name, lit) == Some(Edit(e.start + p, e.end + p, e.replacement))
  {
    hide Laid, Skip, Scan, Shift, Dumps;
    var t := text[p..q];
    ScanDocument(text, p, q, slots);
    assert t[0..|t|] == t;
    ScanLaid(t, 0, |t|, true, slots);
    ShiftZero(slots);
    FindShift(slots, p, name);
    var i := Find(slots, name);
    if i < |slots| { ShiftAt(slots, p, i); }
    else if slots != [] { MaxEndShift(slots, p); }
  }

  /** set_field on any document the decoder accepts as an object: the result decodes to the same object with
      exactly `name` rebound, and only the spliced range of the text differs. */
  lemma SetFieldDecodes(text: string, m: map<Str, Value>, name: Str, literal: string, v: Value) returns (e: Edit)
    requires Decode(text) == Ok(Object(m), |text|) && Exact(literal, v)
    ensures FieldEdit(text, name, literal) == Some(e) && e.start <= e.end <= |text|
    ensures Decode(Apply(text, e)) == Ok(Object(m[name := v]), |Apply(text, e)|)
    ensures name in m ==> e.replacement == literal && Exact(text[e.start..e.end], m[name])
    ensures name !in m ==> e.start == e.end
  {
    hide Laid, Skip, Decode, Exact, FieldEdit, Fields, Shift;
    var p, q := DocumentCore(text, Object(m));
    var t := text[p..q];
    MeansLaid(t, true, Object(m));
    var slots := Layout(t, true).value;
    var e0 := SetFieldExact(t, m, name, literal, v);
    FieldEditDocument(text, p, q, slots, name, literal);
    e := FieldEdit(text, name, literal).value;
    DocumentAround(text, p, q, Apply(t, e0), Object(m[name := v]));
    NestedSplice(text, p, q, e0.start, e0.end, e0.replacement);
    EditedPart(t, slots, name, literal, v, e0);
    SliceOfSlice(text, p, q, e0.start, e0.end);
  }

  /** What the edit removes: the text of the old value, or nothing. */
  lemma EditedPart(t: string, slots: seq<Slot>, name: Str, literal: string, v: Value, e: Edit)
    requires Laid(t, true, slots) && Exact(literal, v) && FieldEdit(t, name, literal) == Some(e)
             && e.start <= e.end <= |t|
    ensures name in Fields(slots) ==> e.replacement == literal && Exact(t[e.start..e.end], Fields(slots)[name])
    ensures name !in Fields(slots) ==> e.start == e.end
  {
    hide Laid, Skip, Exact, FieldEdit, Fields;
    var e1, slots' := SetFieldLaid(t, slots, name, literal, v);
    FieldsOf(slots);
    LaidSlots(t, true, slots);
  }

  /** An edit inside a part of a text is an edit of the text. */
  lemma NestedSplice(text: string, p: nat, q: nat, a: nat, b: nat, lit: string)
    requires p <= q <= |text| && a <= b <= q - p
    ensures Splice(text, p, q, Splice(text[p..q], a, b, lit)) == Splice(text, p + a, p + b, lit)
  {
  }
}
