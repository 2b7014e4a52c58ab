/** Pinning one executor in one catalog entry: executor_edit of scripts/pin_github_defaults_catalog.py:43-63, and
    the release edit of scripts/pin_artemis_release_catalog.py:99-119, which is the same edit. */
module ExecutorPin {
  import opened Json
  import opened JsonFacts
  import opened JsonEdit
  import opened JsonLayout
  import opened FieldScan
  import opened FieldSetting

  const EXECUTOR: Str := UnitsOf("executor")
  const RELEASE: Str := UnitsOf("release")
  const DEPLOYMENT: Str := UnitsOf("deployment")
  const SERVICES: Str := UnitsOf("services")
  const GITHUB := "\"github_actions\""
  const BLOCK := "{\"executor\": \"github_actions\"}"
  const GITHUB_ACTIONS: Value := Text(UnitsOf("github_actions"))

  ghost predicate Plain(s: string) { forall c | c in s :: ' ' <= c <= '~' && c != '"' && c != '\\' }

  lemma {:induction false} PlainDumps(s: string)
    requires Plain(s)
    ensures Escaped(UnitsOf(s)) == s
  {
    if s != "" {
      assert s[0] in s;
      assert Plain(s[1..]) by { forall c | c in s[1..] ensures c in s {} }
      PlainDumps(s[1..]);
      assert UnitsOf(s) == [s[0] as int] + UnitsOf(s[1..]);
      assert EscapedUnit(s[0] as int) == [s[0]];
      assert s == [s[0]] + s[1..];
    }
  }

  lemma DumpsExact(units: Str)
    ensures Exact(Dumps(units), Text(units))
  {
    hide Escaped, StringBody;
    DumpsReads(units, "");
    var t := Dumps(units);
    assert t[1..] == Escaped(units) + "\"" + "";
    TextReads(t, units);
  }

  lemma TextReads(t: string, units: Str)
    requires t != "" && t[0] == '"' && StringBody(t[1..]) == Ok(units, |t| - 1)
    ensures Exact(t, Text(units))
  {
    hide StringBody, Body, Skip, NumberLength;
  }

  lemma GithubExact()
    ensures Exact(GITHUB, GITHUB_ACTIONS)
  {
    hide Exact, Dumps, UnitsOf, Escaped;
    PlainDumps("github_actions");
    DumpsOf("github_actions");
    assert "\"" + "github_actions" + "\"" == GITHUB;
    DumpsExact(UnitsOf("github_actions"));
  }

  lemma BlockExact()
    ensures Exact(BLOCK, Object(map[EXECUTOR := GITHUB_ACTIONS]))
  {
    hide Exact, Dumps, Laid, Fields, UnitsOf, Escaped;
    GithubExact();
    PlainDumps("executor");
    DumpsOf("executor");
    BlockText(Dumps(EXECUTOR));
    EmptyLaid();
    FillLaid("{}", EXECUTOR, GITHUB, GITHUB_ACTIONS);
    var x := Added(EXECUTOR, 1, GITHUB, GITHUB_ACTIONS);
    OneField(x);
    LaidMeans(BLOCK, true, [x]);
  }

  lemma BlockText(name: string)
    requires name == "\"" + "executor" + "\""
    ensures Splice("{}", 1, 1, name + ": " + GITHUB) == BLOCK
  {
    assert "{}"[..1] == "{" && "{}"[1..] == "}";
    assert "{" + (name + ": " + GITHUB) + "}" == BLOCK;
  }

  lemma NamesDiffer()
    ensures RELEASE != DEPLOYMENT
  {
    assert |UnitsOf("release")| == 7 && |UnitsOf("deployment")| == 10;
  }

  lemma DumpsOf(s: string)
    requires Escaped(UnitsOf(s)) == s
    ensures Dumps(UnitsOf(s)) == "\"" + s + "\""
  {
  }

  lemma OneField(x: Slot)
    ensures Fields([x]) == map[x.key := x.value]
  {
  }

  lemma EmptyLaid()
    ensures Laid("{}", true, [])
  {
    var t := "{}";
    assert t[1..] == "}";
    SkipIs("}", 0);
    ClosedStrict("}");
    assert Prepend([], Ok([], 1), 1) == Ok([], 2) by { EmptyPrefix([], 1, 1); }
  }

  lemma ClosedStrict(s: string)
    requires s == "}"
    ensures Body(s, true, false) == Ok([], 1)
  {
    hide Slots;
  }

  // One entry

  /** The entry's fields once `field.executor` is pinned, the block being created when it is missing. */
  function WithExecutor(m: map<Str, Value>, field: Str): map<Str, Value>
    requires field in m ==> m[field].Object?
  {
    m[field := Object((if field in m then m[field].fields else map[])[EXECUTOR := GITHUB_ACTIONS])]
  }

  lemma ScanBounds(text: string, start: nat, obj: bool)
    requires start <= |text| && Scan(text, start, obj).Ok?
    ensures start <= Scan(text, start, obj).used < |text|
    ensures Ordered(Scan(text, start, obj).value, Scan(text, start, obj).used + 1)
    ensures forall i | 0 <= i < |Scan(text, start, obj).value| ::
              Scan(text, start, obj).value[i].end <= Scan(text, start, obj).used
  {
    hide Skip, Body, Shift, UniqueKeys;
    var pos := start + Skip(text[start..]);
    var a := pos + 1 + Skip(text[pos + 1..]);
    var Ok(rel, n) := Body(text[a..], obj, true);
    BodyOrdered(text[a..], obj, true);
    EmptyPrefix(rel, a, n);
    ShiftOrdered(rel, a, n);
  }

  function MoveEdit(e: Option<Edit>, d: nat): Option<Edit> {
    match e
    case None => None
    case Some(x) => Some(Edit(x.start + d, x.end + d, x.replacement))
  }

  /** The edit that pins `field.executor` in an entry, with positions in the entry. */
  function ExecutorEdit(entry: string, field: Str): Option<Edit> {
    match Scan(entry, 0, true)
    case Fail => None
    case Ok(slots, _) =>
      var i := Find(slots, field);
      if i < |slots| then
        ScanBounds(entry, 0, true);
        MoveEdit(FieldEdit(entry[slots[i].start..slots[i].end], EXECUTOR, GITHUB), slots[i].start)
      else FieldEdit(entry, field, BLOCK)
  }

  /** The members of an entry whose text is the object `m`. */
  ghost predicate EntryOf(entry: string, slots: seq<Slot>, m: map<Str, Value>) {
    Laid(entry, true, slots) && Fields(slots) == m
  }

  lemma EntryScan(entry: string, slots: seq<Slot>)
    requires Laid(entry, true, slots)
    ensures Scan(entry, 0, true) == Ok(slots, |entry| - 1)
  {
    hide Laid, Scan;
    assert entry[0..|entry|] == entry;
    ScanLaid(entry, 0, |entry|, true, slots);
    ShiftZero(slots);
  }

  /** The edit of a block that exists: inside that block's braces. */
  lemma PresentEdit(entry: string, slots: seq<Slot>, i: nat, field: Str) returns (e: Edit, slots': seq<Slot>)
    requires Laid(entry, true, slots) && i < |slots| && Find(slots, field) == i && slots[i].value.Object?
    ensures ExecutorEdit(entry, field) == Some(e) && slots[i].start < e.start <= e.end < slots[i].end < |entry|
    ensures Laid(Apply(entry, e), true, slots')
    ensures Replaced(slots, slots', i, slots[i].end - slots[i].start + |e.replacement| - (e.end - e.start),
                     Object(slots[i].value.fields[EXECUTOR := GITHUB_ACTIONS]))
  {
    hide Laid, Scan, Exact, FieldEdit, Find, Replaced, UnitsOf, Splice;
    EntryScan(entry, slots);
    LaidSlots(entry, true, slots);
    GithubExact();
    BlockExact();
    var s, t := slots[i].start, slots[i].end;
    var child := entry[s..t];
    var e0 := SetFieldExact(child, slots[i].value.fields, EXECUTOR, GITHUB, GITHUB_ACTIONS);
    e := Edit(e0.start + s, e0.end + s, e0.replacement);
    slots' := ReplaceLaid(entry, true, slots, i, Apply(child, e0),
                          Object(slots[i].value.fields[EXECUTOR := GITHUB_ACTIONS]));
    SpliceAfter(child, e0.start, e0.end, e0.replacement, 0);
    NestedSplice(entry, s, t, e0.start, e0.end, e0.replacement);
  }

  /** The edit of a block that is missing: right after the last member. */
  lemma MissingEdit(entry: string, slots: seq<Slot>, field: Str) returns (e: Edit, x: Slot)
    requires Laid(entry, true, slots) && slots != [] && Find(slots, field) == |slots|
    ensures ExecutorEdit(entry, field) == Some(e) && e.start == e.end == slots[|slots| - 1].end < |entry|
    ensures Laid(Apply(entry, e), true, slots + [x]) && x.key == field
    ensures x.value == Object(map[EXECUTOR := GITHUB_ACTIONS])
  {
    hide Laid, Scan, Exact, FieldEdit, Find, UnitsOf, Splice;
    EntryScan(entry, slots);
    GithubExact();
    BlockExact();
    var slots';
    e, slots' := SetFieldLaid(entry, slots, field, BLOCK, Object(map[EXECUTOR := GITHUB_ACTIONS]));
    x := Added(field, slots[|slots| - 1].end + 2, BLOCK, Object(map[EXECUTOR := GITHUB_ACTIONS]));
  }

  /** Pinning an entry changes that one executor, creating its block when needed, and nothing else in the entry. */
  lemma PinEntry(entry: string, m: map<Str, Value>, field: Str) returns (e: Edit)
    requires Exact(entry, Object(m)) && m != map[] && (field in m ==> m[field].Object?)
    ensures ExecutorEdit(entry, field) == Some(e) && 0 < e.start <= e.end < |entry|
    ensures Exact(Apply(entry, e), Object(WithExecutor(m, field)))
  {
    hide Laid, Exact, Fields, ExecutorEdit, Find, Replaced, UnitsOf, Splice, UniqueKeys;
    MeansLaid(entry, true, Object(m));
    var slots := Layout(entry, true).value;
    FieldsOf(slots);
    LaidUnique(entry, slots);
    LaidSlots(entry, true, slots);
    var i := Find(slots, field);
    if i < |slots| {
      var slots';
      e, slots' := PresentEdit(entry, slots, i, field);
      var v := Object(slots[i].value.fields[EXECUTOR := GITHUB_ACTIONS]);
      FieldsReplaced(slots, slots', i, slots[i].end - slots[i].start + |e.replacement| - (e.end - e.start), v);
      LaidMeans(Apply(entry, e), true, slots');
    } else {
      if slots == [] { NoFields(); }
      var x;
      e, x := MissingEdit(entry, slots, field);
      FieldsAppended(slots, x);
      LaidMeans(Apply(entry, e), true, slots + [x]);
    }
  }

  lemma NoFields()
    ensures Fields([]) == map[]
  {
  }

  // Two edits in one entry

  lemma LastEnd(slots: seq<Slot>, i: nat, n: nat)
    requires i < |slots| && Ordered(slots, n)
    ensures slots[i].start < slots[i].end <= slots[|slots| - 1].end
  {
    if i < |slots| - 1 { assert slots[i].end < slots[|slots| - 1].start; }
  }

  lemma BlockEdit(entry: string, slots: seq<Slot>, b: nat, field: Str)
    requires Laid(entry, true, slots) && b < |slots| && Find(slots, field) == b
             && slots[b].start <= slots[b].end <= |entry|
    ensures ExecutorEdit(entry, field)
         == MoveEdit(FieldEdit(entry[slots[b].start..slots[b].end], EXECUTOR, GITHUB), slots[b].start)
  {
    hide Laid, Scan, FieldEdit, Find, UnitsOf, MoveEdit;
    EntryScan(entry, slots);
  }

  /** The edit of a block depends only on the block's place and text. */
  lemma SameBlock(entry: string, slots: seq<Slot>, entry': string, slots': seq<Slot>, b: nat, field: Str)
    requires Laid(entry, true, slots) && Laid(entry', true, slots')
    requires b < |slots| && b < |slots'| && Find(slots, field) == b == Find(slots', field) && slots[b] == slots'[b]
    requires slots[b].start <= slots[b].end <= |entry| && slots[b].end <= |entry'|
    requires entry[slots[b].start..slots[b].end] == entry'[slots[b].start..slots[b].end]
    ensures ExecutorEdit(entry', field) == ExecutorEdit(entry, field)
  {
    hide Laid, ExecutorEdit, FieldEdit, Find, UnitsOf, MoveEdit;
    BlockEdit(entry, slots, b, field);
    BlockEdit(entry', slots', b, field);
  }

  lemma PrefixKept(entry: string, e: Edit, a: nat, b: nat)
    requires e.start <= e.end <= |entry| && a <= b <= e.start
    ensures b <= |Apply(entry, e)| && Apply(entry, e)[a..b] == entry[a..b]
  {
    var t := Apply(entry, e);
    assert t[..e.start] == entry[..e.start];
    SliceOfSlice(t, 0, e.start, a, b);
    SliceOfSlice(entry, 0, e.start, a, b);
    assert t[..e.start] == t[0..e.start] && entry[..e.start] == entry[0..e.start];
  }

  lemma TwoPresent(entry: string, slots: seq<Slot>, a: nat, b: nat, f: Str, g: Str) returns (e: Edit, r: Edit)
    requires Laid(entry, true, slots) && a < |slots| && b < |slots| && a != b
    requires Find(slots, f) == a && Find(slots, g) == b && slots[a].value.Object? && slots[b].value.Object?
    ensures ExecutorEdit(entry, f) == Some(e) && ExecutorEdit(entry, g) == Some(r) && e.start <= e.end <= |entry|
    ensures r.end < e.start || e.end < r.start
    ensures r.start < e.start ==> ExecutorEdit(Apply(entry, e), g) == Some(r)
  {
    hide Laid, ExecutorEdit, Find, UnitsOf, Splice, Replaced;
    var slots', slots'';
    e, slots' := PresentEdit(entry, slots, a, f);
    r, slots'' := PresentEdit(entry, slots, b, g);
    LaidSlots(entry, true, slots);
    if b < a {
      assert slots[b].end < slots[a].start;
      var len := slots[a].end - slots[a].start + |e.replacement| - (e.end - e.start);
      var v := Object(slots[a].value.fields[EXECUTOR := GITHUB_ACTIONS]);
      assert len >= 0 && Replaced(slots, slots', a, len, v);
      ReplacedKeys(slots, slots', a, len, v);
      ReplacedBefore(slots, slots', a, len, v, b);
      SameFind(slots, slots', g);
      PrefixKept(entry, e, slots[b].start, slots[b].end);
      SameBlock(entry, slots, Apply(entry, e), slots', b, g);
    } else {
      assert slots[a].end < slots[b].start;
    }
  }

  lemma ReplacedBefore(x: seq<Slot>, y: seq<Slot>, i: nat, len: nat, v: Value, j: nat)
    requires j < i < |x| && Replaced(x, y, i, len, v)
    ensures j < |y| && y[j] == x[j]
  {
  }

  lemma MissingAndPresent(entry: string, slots: seq<Slot>, b: nat, f: Str, g: Str) returns (e: Edit, r: Edit)
    requires Laid(entry, true, slots) && b < |slots| && Find(slots, f) == |slots| && Find(slots, g) == b
             && slots[b].value.Object?
    ensures ExecutorEdit(entry, f) == Some(e) && ExecutorEdit(entry, g) == Some(r) && e.start <= e.end <= |entry|
    ensures r.start <= r.end < e.start
    ensures ExecutorEdit(Apply(entry, e), g) == Some(r)
  {
    hide Laid, ExecutorEdit, Find, UnitsOf, Splice;
    var x, slots'';
    e, x := MissingEdit(entry, slots, f);
    r, slots'' := PresentEdit(entry, slots, b, g);
    LaidSlots(entry, true, slots);
    LastEnd(slots, b, |entry|);
    FindAppend(slots, x, g);
    PrefixKept(entry, e, slots[b].start, slots[b].end);
    SameBlock(entry, slots, Apply(entry, e), slots + [x], b, g);
  }

  /** The release and deployment edits of one entry never touch, as long as one of the two blocks is there; and
      making the later one first leaves the earlier one as it was computed. */
  lemma EntryStable(entry: string, m: map<Str, Value>, f: Str, g: Str) returns (e: Edit, r: Edit)
    requires Exact(entry, Object(m)) && f != g && (f in m || g in m)
    requires (f in m ==> m[f].Object?) && (g in m ==> m[g].Object?)
    ensures ExecutorEdit(entry, f) == Some(e) && ExecutorEdit(entry, g) == Some(r)
    ensures 0 < e.start <= e.end < |entry| && 0 < r.start <= r.end < |entry|
    ensures r.end < e.start || e.end < r.start
    ensures r.start < e.start ==> ExecutorEdit(Apply(entry, e), g) == Some(r)
  {
    hide Laid, ExecutorEdit, Find, UnitsOf, Splice, Fields;
    MeansLaid(entry, true, Object(m));
    var slots := Layout(entry, true).value;
    FieldsOf(slots);
    e := PinEntry(entry, m, f);
    r := PinEntry(entry, m, g);
    var a, b := Find(slots, f), Find(slots, g);
    if a < |slots| && b < |slots| {
      assert a != b;
      var e', r' := TwoPresent(entry, slots, a, b, f, g);
    } else if b < |slots| {
      var e', r' := MissingAndPresent(entry, slots, b, f, g);
    } else {
      var r', e' := MissingAndPresent(entry, slots, a, g, f);
    }
  }
}
