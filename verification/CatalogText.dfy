/** The text of a catalog: a document holding an object whose "services" is an array of entries. Replacing one
    entry's text replaces that row and moves the later entries. */
module CatalogText {
  import opened Json
  import opened JsonFacts
  import opened JsonEdit
  import opened JsonLayout
  import opened FieldScan
  import opened FieldSetting
  import opened ExecutorPin

  /** entry_spans: where the entries of "services" stand. */
  ghost function EntrySpans(text: string): Parsed<seq<Slot>> {
    match Scan(text, 0, true)
    case Fail => Fail
    case Ok(slots, _) =>
      var k := Find(slots, SERVICES);
      ScanBounds(text, 0, true);
      if k == |slots| then Fail else Scan(text, slots[k].start, false)
  }

  ghost predicate Rooted(text: string, root: map<Str, Value>, rows: seq<Value>) {
    && Decode(text) == Ok(Object(root), |text|)
    && SERVICES in root && root[SERVICES] == Array(rows)
  }

  ghost predicate Entries(text: string, rows: seq<Value>, spans: seq<Slot>) {
    && |spans| == |rows|
    && Ordered(spans, |text|)
    && (forall i | 0 <= i < |spans| :: Exact(text[spans[i].start..spans[i].end], rows[i]))
  }

  /** A catalog with these rows, whose entries stand at these spans. */
  ghost predicate IsCatalog(text: string, root: map<Str, Value>, rows: seq<Value>, spans: seq<Slot>) {
    && Rooted(text, root, rows)
    && EntrySpans(text).Ok? && EntrySpans(text).value == spans
    && Entries(text, rows, spans)
  }

  /** The layers of a catalog's text: white space, the root object, the array. */
  datatype Layers = Layers(p: nat, q: nat, slots: seq<Slot>, k: nat, elems: seq<Slot>)
  {
    ghost function A(): nat requires k < |slots| { p + slots[k].start }
    ghost function B(): nat requires k < |slots| { p + slots[k].end }
  }

  ghost predicate Layered(text: string, root: map<Str, Value>, rows: seq<Value>, l: Layers) {
    && l.p == Skip(text) && l.p < l.q <= |text| && l.q + Skip(text[l.q..]) == |text|
    && Laid(text[l.p..l.q], true, l.slots) && Fields(l.slots) == root
    && l.k < |l.slots| && l.k == Find(l.slots, SERVICES)
    && l.A() < l.B() < l.q
    && Laid(text[l.A()..l.B()], false, l.elems) && Items(l.elems) == rows
  }

  lemma FindLayers(text: string, root: map<Str, Value>, rows: seq<Value>) returns (l: Layers)
    requires Rooted(text, root, rows)
    ensures Layered(text, root, rows, l)
  {
    hide Laid, Exact, Skip, Fields, Find, Items, UnitsOf, Decode;
    var p, q := DocumentCore(text, Object(root));
    var core := text[p..q];
    MeansLaid(core, true, Object(root));
    var slots := Layout(core, true).value;
    FieldsOf(slots);
    var k := Find(slots, SERVICES);
    LaidSlots(core, true, slots);
    var a, b := slots[k].start, slots[k].end;
    SliceOfSlice(text, p, q, a, b);
    MeansLaid(core[a..b], false, Array(rows));
    l := Layers(p, q, slots, k, Layout(core[a..b], false).value);
  }

  lemma LayersSpans(text: string, root: map<Str, Value>, rows: seq<Value>, l: Layers)
    requires Layered(text, root, rows, l)
    ensures EntrySpans(text) == Ok(Shift(l.elems, l.A()), l.B() - 1)
  {
    hide Laid, Skip, Fields, Find, Items, UnitsOf, Shift, Scan;
    ScanDocument(text, l.p, l.q, l.slots);
    FindShift(l.slots, l.p, SERVICES);
    ShiftAt(l.slots, l.p, l.k);
    ScanLaid(text, l.A(), l.B(), false, l.elems);
  }

  lemma LayersEntries(text: string, root: map<Str, Value>, rows: seq<Value>, l: Layers)
    requires Layered(text, root, rows, l)
    ensures Entries(text, rows, Shift(l.elems, l.A()))
    ensures forall i | 0 <= i < |l.elems| :: Shift(l.elems, l.A())[i].start == l.A() + l.elems[i].start
    ensures forall i | 0 <= i < |l.elems| :: Shift(l.elems, l.A())[i].end == l.A() + l.elems[i].end < l.B()
  {
    hide Laid, Skip, Fields, Find, UnitsOf, Shift, Exact, Items;
    var arr := text[l.A()..l.B()];
    var spans := Shift(l.elems, l.A());
    LaidSlots(arr, false, l.elems);
    ShiftOrdered(l.elems, l.A(), |arr|);
    forall i | 0 <= i < |l.elems|
      ensures spans[i].start == l.A() + l.elems[i].start && spans[i].end == l.A() + l.elems[i].end < l.B()
      ensures Exact(text[spans[i].start..spans[i].end], rows[i])
    {
      ShiftAt(l.elems, l.A(), i);
      ItemsAt(l.elems, i);
      SliceOfSlice(text, l.A(), l.B(), l.elems[i].start, l.elems[i].end);
    }
  }

  lemma CatalogOf(text: string, root: map<Str, Value>, rows: seq<Value>)
    requires Rooted(text, root, rows)
    ensures EntrySpans(text).Ok? && IsCatalog(text, root, rows, EntrySpans(text).value)
  {
    hide Layered, EntrySpans, Entries;
    var l := FindLayers(text, root, rows);
    LayersSpans(text, root, rows, l);
    LayersEntries(text, root, rows, l);
  }

  lemma ItemsReplaced(x: seq<Slot>, y: seq<Slot>, i: nat, len: nat, v: Value)
    requires i < |x| && Replaced(x, y, i, len, v)
    ensures Items(y) == Items(x)[i := v]
  {
    hide Replaced;
    ReplacedKeys(x, y, i, len, v);
    forall j | 0 <= j < |x| ensures Items(y)[j] == Items(x)[i := v][j] {
      ItemsAt(x, j);
      ItemsAt(y, j);
    }
  }

  /** The layers after the text of one entry was replaced. */
  lemma ReplaceLayers(text: string, root: map<Str, Value>, rows: seq<Value>, l: Layers, i: nat, entry: string, v: Value)
    returns (l': Layers)
    requires Layered(text, root, rows, l) && i < |l.elems| && Exact(entry, v)
    ensures l.A() + l.elems[i].start <= l.A() + l.elems[i].end <= |text| && |rows| == |l.elems|
    ensures Layered(Splice(text, l.A() + l.elems[i].start, l.A() + l.elems[i].end, entry),
                    root[SERVICES := Array(rows[i := v])], rows[i := v], l')
    ensures l'.k < |l'.slots| && l'.A() == l.A() && Replaced(l.elems, l'.elems, i, |entry|, v)
  {
    hide Laid, Skip, Fields, Find, UnitsOf, Shift, Exact, Items, Replaced, Splice, Ws, Decode;
    var core, arr := text[l.p..l.q], text[l.A()..l.B()];
    var a, b := l.slots[l.k].start, l.slots[l.k].end;
    var x, y := l.elems[i].start, l.elems[i].end;
    LaidSlots(arr, false, l.elems);
    ItemsAt(l.elems, i);
    var elems' := ReplaceLaid(arr, false, l.elems, i, entry, v);
    var arr' := Splice(arr, x, y, entry);
    ItemsReplaced(l.elems, elems', i, |entry|, v);
    LaidMeans(arr', false, elems');
    SliceOfSlice(text, l.p, l.q, a, b);
    var slots' := ReplaceLaid(core, true, l.slots, l.k, arr', Array(rows[i := v]));
    var core' := Splice(core, a, b, arr');
    LaidUnique(core, l.slots);
    FieldsReplaced(l.slots, slots', l.k, |arr'|, Array(rows[i := v]));
    ReplacedKeys(l.slots, slots', l.k, |arr'|, Array(rows[i := v]));
    SameFind(l.slots, slots', SERVICES);
    FindIs(l.slots, l.k);
    NestedSplice(core, a, b, x, y, entry);
    NestedSplice(text, l.p, l.q, a + x, a + y, entry);
    var text' := Splice(text, l.A() + x, l.A() + y, entry);
    assert text' == Splice(text, l.p, l.q, core');
    LaidOpen(core', true, slots');
    SpliceAround(text, l.p, l.q, core');
    SpliceAround(core, a, b, arr');
    AroundSpace(text, l.p, l.q, core');
    l' := Layers(l.p, l.p + |core'|, slots', l.k, elems');
    ReplacedSlot(l.slots, slots', l.k, |arr'|, Array(rows[i := v]));
    LaidSlots(core', true, slots');
    SliceOfSlice(text', l.p, l.p + |core'|, a, a + |arr'|);
  }

  lemma FindIs(slots: seq<Slot>, k: nat)
    requires k < |slots| && k == Find(slots, SERVICES)
    ensures slots[k].key == SERVICES
  {
    hide UnitsOf;
  }

  lemma ReplacedSlot(x: seq<Slot>, y: seq<Slot>, i: nat, len: nat, v: Value)
    requires i < |x| && Replaced(x, y, i, len, v)
    ensures i < |y| && y[i] == Slot(x[i].key, x[i].start, x[i].start + len, v)
  {
  }

  lemma SpliceAround(s: string, a: nat, b: nat, lit: string)
    requires a <= b <= |s|
    ensures |Splice(s, a, b, lit)| == |s| - (b - a) + |lit|
    ensures Splice(s, a, b, lit)[a..a + |lit|] == lit
    ensures Splice(s, a, b, lit)[a + |lit|..] == s[b..]
    ensures Splice(s, a, b, lit)[..a] == s[..a]
  {
  }

  lemma AroundSpace(text: string, p: nat, q: nat, core: string)
    requires p == Skip(text) && p <= q <= |text| && core != "" && !Ws(core[0])
    ensures Skip(Splice(text, p, q, core)) == p
  {
    hide Skip, Ws;
    var t := Splice(text, p, q, core);
    SpliceAround(text, p, q, core);
    assert t[p] == t[p..p + |core|][0];
    SkipLocal(text, t);
  }

  /** Replacing the text of one entry: the same catalog with that row replaced, the later entries moved. */
  lemma ReplaceRow(text: string, root: map<Str, Value>, rows: seq<Value>, spans: seq<Slot>, i: nat, entry: string,
                   v: Value)
    returns (spans': seq<Slot>)
    requires IsCatalog(text, root, rows, spans) && i < |rows| && Exact(entry, v)
    ensures spans[i].start <= spans[i].end <= |text|
    ensures IsCatalog(Splice(text, spans[i].start, spans[i].end, entry),
                      root[SERVICES := Array(rows[i := v])], rows[i := v], spans')
    ensures Replaced(spans, spans', i, |entry|, v)
  {
    hide Layered, EntrySpans, Entries, Replaced, Splice, Shift, Decode, Exact, UnitsOf;
    var l := FindLayers(text, root, rows);
    LayersSpans(text, root, rows, l);
    LayersEntries(text, root, rows, l);
    SameLength(text, root, rows, l);
    var l' := ReplaceLayers(text, root, rows, l, i, entry, v);
    var text' := Splice(text, spans[i].start, spans[i].end, entry);
    LayersRooted(text', root[SERVICES := Array(rows[i := v])], rows[i := v], l');
    CatalogOf(text', root[SERVICES := Array(rows[i := v])], rows[i := v]);
    LayersSpans(text', root[SERVICES := Array(rows[i := v])], rows[i := v], l');
    spans' := Shift(l'.elems, l'.A());
    ReplacedShift(l.elems, l'.elems, i, |entry|, v, l.A());
  }

  lemma SameLength(text: string, root: map<Str, Value>, rows: seq<Value>, l: Layers)
    requires Layered(text, root, rows, l)
    ensures |l.elems| == |rows| && l.k < |l.slots|
  {
    hide Laid, Skip, Fields, Find, UnitsOf;
  }

  lemma LayersRooted(text: string, root: map<Str, Value>, rows: seq<Value>, l: Layers)
    requires Layered(text, root, rows, l) && SERVICES in root && root[SERVICES] == Array(rows)
    ensures Rooted(text, root, rows)
  {
    hide Laid, Skip, Fields, Find, UnitsOf, Items, Decode, Exact;
    var core := text[l.p..l.q];
    LaidMeans(core, true, l.slots);
    DocumentAround(text, l.p, l.q, core, Object(root));
    assert Splice(text, l.p, l.q, core) == text;
  }
}
