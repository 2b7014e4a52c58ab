/** The text of one object or array: where its members stand, and what it means after one of them was edited. */
module JsonLayout {
  import opened Json
  import opened JsonFacts
  import opened JsonEdit

  function Open(obj: bool): char { if obj then '{' else '[' }

  /** The members of a bracketed text with positions in that text; `used` is just after the closing bracket. */
  ghost function Layout(t: string, obj: bool): Parsed<seq<Slot>>
    requires t != ""
  {
    var a := 1 + Skip(t[1..]);
    Prepend([], Body(t[a..], obj, false), a)
  }

  ghost function Meaning(obj: bool, slots: seq<Slot>): Value {
    if obj then Object(Fields(slots)) else Array(Items(slots))
  }

  /** The text is exactly one object or array, with these members. */
  ghost predicate Laid(t: string, obj: bool, slots: seq<Slot>) {
    && t != "" && t[0] == Open(obj)
    && Layout(t, obj) == Ok(slots, |t|)
    && (obj ==> UniqueKeys(slots))
  }

  // Shifting

  lemma ShiftFacts(slots: seq<Slot>, d: nat)
    ensures Items(Shift(slots, d)) == Items(slots) && Fields(Shift(slots, d)) == Fields(slots)
    ensures UniqueKeys(Shift(slots, d)) <==> UniqueKeys(slots)
  {
    hide Items, Fields, Shift;
    ShiftMeans(slots, d);
    forall i | 0 <= i < |slots| ensures Shift(slots, d)[i].key == slots[i].key { ShiftAt(slots, d, i); }
  }

  lemma {:induction false} ShiftMeans(slots: seq<Slot>, d: nat)
    ensures Items(Shift(slots, d)) == Items(slots) && Fields(Shift(slots, d)) == Fields(slots)
  {
    if slots != [] { ShiftMeans(slots[1..], d); }
  }

  lemma {:induction false} ItemsAt(slots: seq<Slot>, i: nat)
    requires i < |slots|
    ensures Items(slots)[i] == slots[i].value
  {
    if i > 0 { ItemsAt(slots[1..], i - 1); }
  }

  /** A text means an object or array exactly when it is laid out that way. */
  lemma LaidMeans(t: string, obj: bool, slots: seq<Slot>)
    requires Laid(t, obj, slots)
    ensures Exact(t, Meaning(obj, slots))
  {
    hide ParseValue, Body, Skip, UniqueKeys, Fields, Items;
    var a := 1 + Skip(t[1..]);
    var rel := Body(t[a..], obj, false).value;
    assert slots == Shift(rel, a);
    ShiftFacts(rel, a);
    BracketIs(t, obj, a, rel, |t| - a);
  }

  lemma MeansLaid(t: string, obj: bool, v: Value)
    requires Exact(t, v) && (v.Object? || v.Array?) && obj == v.Object?
    ensures t != "" && Layout(t, obj).Ok? && Laid(t, obj, Layout(t, obj).value)
            && v == Meaning(obj, Layout(t, obj).value)
  {
    hide ParseValue, Body, Skip, UniqueKeys, Fields, Items;
    FirstChar(t);
    var a := 1 + Skip(t[1..]);
    BracketShape(t, obj, a);
    var rel := Body(t[a..], obj, false).value;
    ShiftFacts(rel, a);
    assert [] + Shift(rel, a) == Shift(rel, a);
  }

  lemma FirstChar(t: string)
    requires ParseValue(t).Ok?
    ensures ParseValue(t).value.Object? <==> t[0] == '{'
    ensures ParseValue(t).value.Array? <==> t[0] == '['
  {
    hide Body, Skip, UniqueKeys, Fields, Items, NumberLength, StringBody;
  }

  // Where members stand

  lemma {:induction false} SlotText(s: string, obj: bool, slots: seq<Slot>, n: nat, i: nat)
    requires Slots(s, obj, false) == Ok(slots, n) && i < |slots|
    ensures slots[i].start < slots[i].end <= |s|
    ensures ParseValue(s[slots[i].start..]) == Ok(slots[i].value, slots[i].end - slots[i].start)
    decreases |s|
  {
    hide OneSlot, Slots, Skip, Prepend, ParseValue, Shift;
    SlotsShape(s, obj, false);
    var Ok(slot, c) := OneSlot(s, obj);
    SlotShape(s, obj, slot, c);
    if s[c] == Close(obj) {
      SlotsLast(s, obj, false, slot, c);
    } else {
      var d := c + 1 + Skip(s[c + 1..]);
      SlotsMore(s, obj, false, slot, c, d);
      PrependParts([slot], More(s[d..], obj, false), d);
      var rest := More(s[d..], obj, false).value;
      if i > 0 {
        SlotText(s[d..], obj, rest, n - d, i - 1);
        ConsAt(slot, rest, d, i - 1);
        DropTwice(s, d, rest[i - 1].start);
      }
    }
  }

  lemma DropTwice(s: string, a: nat, b: nat)
    requires a + b <= |s|
    ensures s[a..][b..] == s[a + b..]
  {
  }

  lemma LaidSlots(t: string, obj: bool, slots: seq<Slot>)
    requires Laid(t, obj, slots)
    ensures Ordered(slots, |t|)
    ensures forall i | 0 <= i < |slots| :: slots[i].start > 0 && slots[i].end <= |t|
    ensures forall i | 0 <= i < |slots| :: Exact(t[slots[i].start..slots[i].end], slots[i].value)
  {
    hide Slots, Skip, ParseValue, UniqueKeys, Shift, Exact;
    var a := 1 + Skip(t[1..]);
    var rel := Body(t[a..], obj, false).value;
    if rel != [] {
      SlotsOrdered(t[a..], obj, false);
      forall i | 0 <= i < |rel|
        ensures 0 < slots[i].start < slots[i].end <= |t| && Exact(t[slots[i].start..slots[i].end], slots[i].value)
      {
        SlotText(t[a..], obj, rel, |t| - a, i);
        ShiftAt(rel, a, i);
        assert t[a..][rel[i].start..] == t[slots[i].start..];
        OwnText(t, slots[i].start, slots[i].value, slots[i].end - slots[i].start);
      }
      ShiftOrdered(rel, a, |t| - a);
    }
  }

  lemma ShiftOrdered(slots: seq<Slot>, d: nat, n: nat)
    requires Ordered(slots, n)
    ensures Ordered(Shift(slots, d), n + d)
  {
    hide Shift;
    forall i | 0 <= i < |slots|
      ensures Shift(slots, d)[i].start == slots[i].start + d && Shift(slots, d)[i].end == slots[i].end + d
    {
      ShiftAt(slots, d, i);
    }
    forall i, j | 0 <= i < j < |slots| ensures Shift(slots, d)[i].end < Shift(slots, d)[j].start {
      assert slots[i].end < slots[j].start;
    }
  }

  // Edits

  lemma SlotsStart(s: string, obj: bool, lax: bool)
    requires Slots(s, obj, lax).Ok?
    ensures s[0] != Close(obj) && !Ws(s[0])
    ensures Body(s, obj, lax) == Slots(s, obj, lax)
  {
    hide ParseValue, Skip, Slots;
    SlotsShape(s, obj, lax);
    if !obj {
      SlotShape(s, obj, OneSlot(s, obj).value, OneSlot(s, obj).used);
      assert s[0..] == s;
      ValueStart(s);
      NotClosing(s);
    }
  }

  lemma NotClosing(s: string)
    requires ParseValue(s).Ok?
    ensures s[0] != ']'
  {
    hide Body, Skip, StringBody, FractionLength, ExponentLength;
  }

  /** Rebuilding a layout from its body. */
  lemma LaidFrom(t: string, obj: bool, a: nat, rel: seq<Slot>)
    requires t != "" && t[0] == Open(obj) && a == 1 + Skip(t[1..])
    requires Body(t[a..], obj, false) == Ok(rel, |t| - a) && (obj ==> UniqueKeys(rel))
    ensures Laid(t, obj, Shift(rel, a))
  {
    hide Body, Skip, UniqueKeys, Shift;
    ShiftFacts(rel, a);
    assert [] + Shift(rel, a) == Shift(rel, a);
  }

  lemma LaidBody(t: string, obj: bool, slots: seq<Slot>, a: nat)
    requires Laid(t, obj, slots) && a == 1 + Skip(t[1..])
    ensures Body(t[a..], obj, false).Ok? && Body(t[a..], obj, false).used == |t| - a
    ensures slots == Shift(Body(t[a..], obj, false).value, a)
    ensures obj ==> UniqueKeys(Body(t[a..], obj, false).value)
    ensures slots != [] ==> Slots(t[a..], obj, false) == Body(t[a..], obj, false)
  {
    hide Skip, UniqueKeys, Shift, Slots;
    ShiftFacts(Body(t[a..], obj, false).value, a);
    assert [] + Shift(Body(t[a..], obj, false).value, a) == Shift(Body(t[a..], obj, false).value, a);
  }

  lemma ReplacedShift(x: seq<Slot>, y: seq<Slot>, i: nat, len: nat, v: Value, d: nat)
    requires i < |x| && Replaced(x, y, i, len, v)
    ensures Replaced(Shift(x, d), Shift(y, d), i, len, v)
  {
    hide Shift;
    forall j | 0 <= j < |x|
      ensures Shift(x, d)[j] == Slot(x[j].key, x[j].start + d, x[j].end + d, x[j].value)
      ensures Shift(y, d)[j] == Slot(y[j].key, y[j].start + d, y[j].end + d, y[j].value)
    {
      ShiftAt(x, d, j);
      ShiftAt(y, d, j);
    }
    forall j | i < j < |x| ensures Moved(Shift(x, d)[j], Shift(y, d)[j], len - (x[i].end - x[i].start)) {
      assert Moved(x[j], y[j], len - (x[i].end - x[i].start));
    }
  }

  lemma ReplacedUnique(x: seq<Slot>, y: seq<Slot>, i: nat, len: nat, v: Value)
    requires i < |x| && Replaced(x, y, i, len, v) && UniqueKeys(x)
    ensures UniqueKeys(y)
  {
    forall j | 0 <= j < |x| ensures y[j].key == x[j].key {
      if j > i { assert Moved(x[j], y[j], len - (x[i].end - x[i].start)); }
    }
  }

  /** The opening part of a bracketed text survives an edit after it. */
  lemma SameOpening(t: string, a: nat, x: nat, y: nat, lit: string)
    requires t != "" && !Ws(t[0]) && a == 1 + Skip(t[1..]) && a <= x <= y <= |t|
    requires a == x ==> lit != "" && !Ws(lit[0])
    ensures Splice(t, x, y, lit)[0] == t[0] && 1 + Skip(Splice(t, x, y, lit)[1..]) == a
    ensures Splice(t, x, y, lit)[a..] == Splice(t[a..], x - a, y - a, lit)
  {
    hide Skip;
    var t' := Splice(t, x, y, lit);
    assert t'[..x] == t[..x];
    SpliceTail(t, x, y, lit, a);
    assert t'[0] == t'[..x][0];
    if a == x { assert t'[x] == lit[0]; }
    SkipAt(t, t', 1, x);
  }

  /** Replacing the text of one member leaves a text laid out the same way, with that member's new value. */
  lemma ReplaceLaid(t: string, obj: bool, slots: seq<Slot>, i: nat, lit: string, v: Value) returns (slots': seq<Slot>)
    requires Laid(t, obj, slots) && i < |slots| && Exact(lit, v)
    ensures slots[i].start < slots[i].end <= |t|
    ensures Laid(Splice(t, slots[i].start, slots[i].end, lit), obj, slots') && Replaced(slots, slots', i, |lit|, v)
  {
    hide Skip, UniqueKeys, Shift, Slots, Body, Exact, Replaced, Laid, Splice, Ws;
    LaidOpen(t, obj, slots);
    var a := 1 + Skip(t[1..]);
    LaidBody(t, obj, slots, a);
    var rel := Body(t[a..], obj, false).value;
    ShiftAt(rel, a, i);
    var x, y := slots[i].start, slots[i].end;
    var rel' := ReplaceSlot(t[a..], obj, rel, |t| - a, i, lit, v);
    LiteralStart(lit, v);
    SameOpening(t, a, x, y, lit);
    var t' := Splice(t, x, y, lit);
    SpliceTail(t, x, y, lit, 0);
    SlotsStart(t'[a..], obj, false);
    if obj { ReplacedUnique(rel, rel', i, |lit|, v); }
    LaidFrom(t', obj, a, rel');
    slots' := Shift(rel', a);
    ReplacedShift(rel, rel', i, |lit|, v, a);
  }

  lemma LaidOpen(t: string, obj: bool, slots: seq<Slot>)
    requires Laid(t, obj, slots)
    ensures |t| > 1 && t[0] == Open(obj) && !Ws(t[0])
  {
    hide Skip, UniqueKeys, Shift;
  }

  lemma LiteralStart(lit: string, v: Value)
    requires Exact(lit, v)
    ensures lit != "" && !Ws(lit[0])
  {
    hide ParseValue;
    ValueStart(lit);
  }

  lemma AppendUnique(slots: seq<Slot>, x: Slot, d: nat)
    requires UniqueKeys(slots) && forall i | 0 <= i < |slots| :: Shift(slots, d)[i].key != x.key
    ensures UniqueKeys(slots + [x])
  {
    forall i | 0 <= i < |slots| ensures slots[i].key != x.key { ShiftAt(slots, d, i); }
  }

  lemma AppendLaid(t: string, slots: seq<Slot>, name: Str, lit: string, v: Value)
    requires Laid(t, true, slots) && slots != [] && Exact(lit, v)
    requires forall i | 0 <= i < |slots| :: slots[i].key != name
    ensures slots[|slots| - 1].end < |t|
    ensures var e := slots[|slots| - 1].end;
            Laid(Splice(t, e, e, Addition(name, lit)), true, slots + [Added(name, e + 2, lit, v)])
  {
    hide Skip, Shift, Slots, Body, Exact, Laid, Splice, Ws, Addition, UniqueKeys;
    LaidOpen(t, true, slots);
    var a := 1 + Skip(t[1..]);
    LaidBody(t, true, slots, a);
    var rel := Body(t[a..], true, false).value;
    var last := |rel| - 1;
    ShiftAt(rel, a, last);
    AppendSlot(t[a..], rel, |t| - a, name, lit, v);
    var e := slots[last].end;
    var add := Addition(name, lit);
    SlotsOrdered(t[a..], true, false);
    SameOpening(t, a, e, e, add);
    var t' := Splice(t, e, e, add);
    SpliceTail(t, e, e, add, 0);
    SlotsStart(t'[a..], true, false);
    var x := Added(name, rel[last].end + 2, lit, v);
    AppendUnique(rel, x, a);
    LaidFrom(t', true, a, rel + [x]);
    ShiftAppend(rel, [x], a);
    ShiftOne(x, a);
  }

  lemma ShiftOne(x: Slot, d: nat)
    ensures Shift([x], d) == [Slot(x.key, x.start + d, x.end + d, x.value)]
  {
  }

  lemma FillLaid(t: string, name: Str, lit: string, v: Value)
    requires Laid(t, true, []) && Exact(lit, v)
    ensures Laid(Splice(t, |t| - 1, |t| - 1, Dumps(name) + ": " + lit), true, [Added(name, |t| - 1, lit, v)])
  {
    hide Skip, Slots, Exact, Ws, Escaped;
    var a := 1 + Skip(t[1..]);
    LaidOpen(t, true, []);
    LaidBody(t, true, [], a);
    EmptyBody(t[a..], |t| - a);
    var add := Dumps(name) + ": " + lit;
    var t' := Splice(t, a, a, add);
    assert !Ws(add[0]) by { assert add[0] == '"'; QuoteIsNotSpace(); }
    SameOpening(t, a, a, a, add);
    assert t'[a..] == add + "}";
    CloseStays();
    OnlyMember(name, lit, v, "}");
    SlotsStart(t'[a..], true, false);
    LaidFrom(t', true, a, [Added(name, 0, lit, v)]);
    assert Shift([Added(name, 0, lit, v)], a) == [Added(name, a, lit, v)];
  }

  lemma QuoteIsNotSpace()
    ensures !Ws('"')
  {
  }

  lemma CloseStays()
    ensures Skip("}") == 0
  {
  }

  lemma EmptyBody(s: string, n: nat)
    requires Body(s, true, false) == Ok([], n) && n == |s|
    ensures s == "}"
  {
    hide Slots;
    assert s[0] == '}';
  }
}
