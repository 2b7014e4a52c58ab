/** What splicing text into a bracketed body does to its meaning: replacing one value, adding a member at the
    end, and filling an empty object. */
module JsonEdit {
  import opened Json
  import opened JsonFacts

  function Splice(s: string, a: nat, b: nat, lit: string): string
    requires a <= b <= |s|
  {
    s[..a] + lit + s[b..]
  }

  // json.dumps of a name

  function HexChar(d: int): (c: char)
    requires 0 <= d < 16
    ensures HexDigit(c) == d
  {
    if d < 10 then ('0' as int + d) as char else ('a' as int + d - 10) as char
  }

  function EscapedUnit(u: Unit): string {
    if u == 34 then "\\\"" else if u == 92 then "\\\\"
    else if u == 8 then "\\b" else if u == 12 then "\\f" else if u == 10 then "\\n"
    else if u == 13 then "\\r" else if u == 9 then "\\t"
    else if 32 <= u <= 126 then [u as char]
    else ['\\', 'u', HexChar(u / 4096), HexChar(u / 256 % 16), HexChar(u / 16 % 16), HexChar(u % 16)]
  }

  function Escaped(units: Str): string {
    if units == [] then "" else EscapedUnit(units[0]) + Escaped(units[1..])
  }

  /** The ASCII-only rendering of a string by json.dumps. */
  function Dumps(units: Str): string { "\"" + Escaped(units) + "\"" }

  lemma UnitReads(u: Unit, rest: string, units: Str, n: nat)
    requires StringBody(rest) == Ok(units, n)
    ensures StringBody(EscapedUnit(u) + rest) == Ok([u] + units, |EscapedUnit(u)| + n)
  {
    hide HexDigit, HexChar;
    var e := EscapedUnit(u);
    var t := e + rest;
    if e[0] == '\\' {
      assert t[1..] == e[1..] + rest;
      if |e| == 6 {
        assert HexDigit(t[2]) == u / 4096 && HexDigit(t[3]) == u / 256 % 16;
        assert HexDigit(t[4]) == u / 16 % 16 && HexDigit(t[5]) == u % 16;
        HexValue(u);
        assert Escape(t[1..]) == Ok(u, 5);
      } else {
        assert Escape(t[1..]) == Ok(u, 1);
      }
      assert t[|e|..] == rest;
    } else {
      assert t[1..] == rest;
      assert Units(t[0]) == [u];
    }
  }

  lemma HexValue(u: Unit)
    ensures u / 4096 < 16
    ensures u / 4096 * 4096 + u / 256 % 16 * 256 + u / 16 % 16 * 16 + u % 16 == u
  {
  }

  /** Reading back a dumped name gives the name, whatever follows. */
  lemma {:induction false} DumpsReads(units: Str, rest: string)
    ensures StringBody(Escaped(units) + "\"" + rest) == Ok(units, |Escaped(units)| + 1)
  {
    if units == [] {
      assert Escaped(units) + "\"" + rest == "\"" + rest;
    } else {
      DumpsReads(units[1..], rest);
      var tail := Escaped(units[1..]) + "\"" + rest;
      assert Escaped(units) + "\"" + rest == EscapedUnit(units[0]) + tail;
      UnitReads(units[0], tail, units[1..], |Escaped(units[1..])| + 1);
      assert [units[0]] + units[1..] == units;
    }
  }

  /** One member written as `name: literal`, with whatever follows the literal. */
  lemma MemberReads(name: Str, lit: string, v: Value, rest: string)
    requires Exact(lit, v) && rest != "" && Delimiter(rest[0])
    ensures var t := Dumps(name) + ": " + lit + rest;
            OneSlot(t, true) == Ok(Slot(name, |Dumps(name)| + 2, |Dumps(name)| + 2 + |lit|, v),
                                   |Dumps(name)| + 2 + |lit| + Skip(rest))
  {
    hide Escaped, OneSlot, StringBody, ParseValue, Head, Skip;
    var q := Dumps(name);
    var t := q + ": " + lit + rest;
    var b := |q| + 2;
    assert t[b..] == lit + rest;
    assert Head(t, true) == Ok(name, b) by {
      assert t[1..] == Escaped(name) + "\"" + (": " + lit + rest);
      DumpsReads(name, ": " + lit + rest);
      ValueStart(lit);
      SkipIs(t[|q|..], 0);
      assert t[|q| + 1] == ' ' && t[b] == lit[0];
      SkipIs(t[|q| + 1..], 1);
      HeadReads(t, name, |q| - 1);
    }
    LiteralReads(lit, v, rest);
    assert t[b + |lit|..] == rest;
    SlotParts(t, true, name, b, v, |lit|);
  }

  lemma HeadReads(t: string, name: Str, k: nat)
    requires t != "" && t[0] == '"' && StringBody(t[1..]) == Ok(name, k)
    requires 1 + k < |t| && t[1 + k] == ':' && Skip(t[1 + k..]) == 0 && Skip(t[2 + k..]) == 1
    ensures Head(t, true) == Ok(name, k + 3)
  {
    hide StringBody, Skip;
  }

  /** A literal keeps its meaning before anything that may follow a value. */
  lemma LiteralReads(lit: string, v: Value, rest: string)
    requires Exact(lit, v) && rest != "" && Delimiter(rest[0])
    ensures ParseValue(lit + rest) == Ok(v, |lit|)
  {
    hide ParseValue;
    assert (lit + rest)[..|lit|] == lit == lit[..|lit|];
    ValueLocal(lit, lit + rest);
  }

  // Replacing one value

  /** The slots of a body after the value at `i` was replaced by a text of length `len`. */
  ghost predicate Replaced(before: seq<Slot>, after: seq<Slot>, i: nat, len: nat, v: Value)
    requires i < |before|
  {
    && |after| == |before|
    && (forall j | 0 <= j < i :: after[j] == before[j])
    && after[i] == Slot(before[i].key, before[i].start, before[i].start + len, v)
    && (forall j | i < j < |before| :: Moved(before[j], after[j], len - (before[i].end - before[i].start)))
  }

  ghost predicate Moved(x: Slot, y: Slot, d: int) {
    y.key == x.key && y.start == x.start + d && y.end == x.end + d && y.value == x.value
  }

  lemma SpliceTail(s: string, a: nat, b: nat, lit: string, d: nat)
    requires d <= a <= b <= |s|
    ensures |Splice(s, a, b, lit)| == |s| - (b - a) + |lit|
    ensures Splice(s, a, b, lit)[d..] == Splice(s[d..], a - d, b - d, lit)
    ensures Splice(s, a, b, lit)[..d] == s[..d]
  {
  }

  lemma SpliceAfter(s: string, a: nat, b: nat, lit: string, k: nat)
    requires a <= b <= b + k <= |s|
    ensures |Splice(s, a, b, lit)| == |s| - (b - a) + |lit|
    ensures Splice(s, a, b, lit)[a + |lit| + k..] == s[b + k..]
    ensures Splice(s, a, b, lit)[a..] == lit + s[b..]
  {
  }

  /** The first slot of a body keeps its key and its place whatever value and continuation are put there. */
  lemma FirstFollowed(s: string, obj: bool, slot: Slot, c: nat, lit: string, v: Value, rest: string)
    requires OneSlot(s, obj) == Ok(slot, c) && Exact(lit, v) && rest != "" && Delimiter(rest[0])
    ensures OneSlot(s[..slot.start] + lit + rest, obj)
            == Ok(Slot(slot.key, slot.start, slot.start + |lit|, v), slot.start + |lit| + Skip(rest))
  {
    hide OneSlot, ParseValue, Head, Skip;
    var b := slot.start;
    var t := s[..b] + lit + rest;
    SlotShape(s, obj, slot, c);
    assert Head(t, obj) == Head(s, obj) by {
      assert t[..b] == s[..b];
      ValueStart(lit);
      assert t[b] == lit[0];
      HeadLocal(s, t, obj);
    }
    assert t[b..] == lit + rest;
    LiteralReads(lit, v, rest);
    assert t[b + |lit|..] == rest;
    SlotParts(t, obj, slot.key, b, v, |lit|);
  }

  lemma FirstReplaced(s: string, obj: bool, slot: Slot, c: nat, lit: string, v: Value)
    requires OneSlot(s, obj) == Ok(slot, c) && c < |s| && Delimiter(s[c]) && Exact(lit, v)
    ensures var t := Splice(s, slot.start, slot.end, lit);
            && OneSlot(t, obj)
               == Ok(Slot(slot.key, slot.start, slot.start + |lit|, v), c + |lit| - (slot.end - slot.start))
            && t[c + |lit| - (slot.end - slot.start)..] == s[c..]
  {
    hide OneSlot, ParseValue, Skip;
    SlotShape(s, obj, slot, c);
    SlotFollows(s, obj, slot, c);
    FirstFollowed(s, obj, slot, c, lit, v, s[slot.end..]);
    SpliceAfter(s, slot.start, slot.end, lit, c - slot.end);
  }

  lemma ReplacedFirst(slot: Slot, rest: seq<Slot>, d: nat, e: nat, len: nat, v: Value)
    requires e == d + len - (slot.end - slot.start)
    ensures Replaced([slot] + Shift(rest, d), [Slot(slot.key, slot.start, slot.start + len, v)] + Shift(rest, e),
                     0, len, v)
  {
    forall j | 0 < j < |rest| + 1
      ensures Moved(([slot] + Shift(rest, d))[j], ([slot] + Shift(rest, e))[j], e - d)
    {
      ShiftAt(rest, d, j - 1);
      ShiftAt(rest, e, j - 1);
    }
  }

  lemma ConsAt(slot: Slot, rest: seq<Slot>, d: nat, j: nat)
    requires j < |rest|
    ensures ([slot] + Shift(rest, d))[j + 1] == Slot(rest[j].key, rest[j].start + d, rest[j].end + d, rest[j].value)
  {
    ShiftAt(rest, d, j);
  }

  lemma ReplacedLater(slot: Slot, rest: seq<Slot>, rest': seq<Slot>, d: nat, i: nat, len: nat, v: Value)
    requires i < |rest| && Replaced(rest, rest', i, len, v)
    ensures Replaced([slot] + Shift(rest, d), [slot] + Shift(rest', d), i + 1, len, v)
  {
    hide Shift, Moved;
    var x, y := [slot] + Shift(rest, d), [slot] + Shift(rest', d);
    forall j | 0 <= j < i + 1 ensures x[j] == y[j] {
      if j > 0 { ConsAt(slot, rest, d, j - 1); ConsAt(slot, rest', d, j - 1); }
    }
    ConsAt(slot, rest, d, i);
    ConsAt(slot, rest', d, i);
    forall j | i + 1 < j < |x| ensures Moved(x[j], y[j], len - (x[i + 1].end - x[i + 1].start)) {
      assert Moved(rest[j - 1], rest'[j - 1], len - (rest[i].end - rest[i].start));
      ConsMoved(slot, rest, rest', d, j - 1, len - (rest[i].end - rest[i].start));
    }
  }

  lemma ConsMoved(slot: Slot, rest: seq<Slot>, rest': seq<Slot>, d: nat, j: nat, shift: int)
    requires j < |rest| && j < |rest'| && Moved(rest[j], rest'[j], shift)
    ensures Moved(([slot] + Shift(rest, d))[j + 1], ([slot] + Shift(rest', d))[j + 1], shift)
  {
    hide Shift;
    ConsAt(slot, rest, d, j);
    ConsAt(slot, rest', d, j);
  }

  /** Replacing the text of one value in a body replaces that value, moves the later spans and nothing else. */
  lemma {:induction false} ReplaceSlot(s: string, obj: bool, slots: seq<Slot>, n: nat, i: nat, lit: string, v: Value)
    returns (slots': seq<Slot>)
    requires Slots(s, obj, false) == Ok(slots, n) && i < |slots| && Exact(lit, v)
    ensures slots[i].start < slots[i].end < n
    ensures Slots(Splice(s, slots[i].start, slots[i].end, lit), obj, false)
            == Ok(slots', n + |lit| - (slots[i].end - slots[i].start))
    ensures Replaced(slots, slots', i, |lit|, v)
    decreases |s|, 1
  {
    hide OneSlot, Slots, Skip, Prepend, Ordered, Replaced, ParseValue;
    SlotsShape(s, obj, false);
    var Ok(slot, c) := OneSlot(s, obj);
    var d := c + 1 + Skip(s[c + 1..]);
    if s[c] == Close(obj) {
      SlotsLast(s, obj, false, slot, c);
      slots' := ReplaceOnly(s, obj, slot, c, lit, v);
    } else {
      SlotsMore(s, obj, false, slot, c, d);
      PrependParts([slot], More(s[d..], obj, false), d);
      if i == 0 {
        slots' := ReplaceHead(s, obj, slot, c, d, lit, v);
      } else {
        slots' := ReplaceTail(s, obj, slot, c, d, slots, n, i, lit, v);
      }
    }
  }

  lemma ReplaceOnly(s: string, obj: bool, slot: Slot, c: nat, lit: string, v: Value) returns (slots': seq<Slot>)
    requires OneSlot(s, obj) == Ok(slot, c) && c < |s| && s[c] == Close(obj) && Exact(lit, v)
    ensures Slots(Splice(s, slot.start, slot.end, lit), obj, false)
            == Ok(slots', c + 1 + |lit| - (slot.end - slot.start))
    ensures Replaced([slot], slots', 0, |lit|, v)
  {
    hide OneSlot, Slots, Skip, ParseValue;
    FirstReplaced(s, obj, slot, c, lit, v);
    var c' := c + |lit| - (slot.end - slot.start);
    var t := Splice(s, slot.start, slot.end, lit);
    assert t[c'] == t[c'..][0] == s[c];
    slots' := [Slot(slot.key, slot.start, slot.start + |lit|, v)];
    SlotsLast(t, obj, false, slots'[0], c');
  }

  lemma {:induction false} ReplaceTail(s: string, obj: bool, slot: Slot, c: nat, d: nat, slots: seq<Slot>, n: nat,
                                       i: nat, lit: string, v: Value)
    returns (slots': seq<Slot>)
    requires Slots(s, obj, false) == Ok(slots, n) && 0 < i < |slots| && Exact(lit, v)
    requires OneSlot(s, obj) == Ok(slot, c) && c < |s| && s[c] == ',' && d == c + 1 + Skip(s[c + 1..])
    ensures slots[i].start < slots[i].end < n
    ensures Slots(Splice(s, slots[i].start, slots[i].end, lit), obj, false)
            == Ok(slots', n + |lit| - (slots[i].end - slots[i].start))
    ensures Replaced(slots, slots', i, |lit|, v)
    decreases |s|, 0
  {
    hide OneSlot, Slots, Skip, Prepend, Ordered, Replaced, ParseValue, Splice, Shift;
    SlotsMore(s, obj, false, slot, c, d);
    PrependParts([slot], More(s[d..], obj, false), d);
    var rest := More(s[d..], obj, false).value;
    assert slots == [slot] + Shift(rest, d);
    ConsAt(slot, rest, d, i - 1);
    var a, b := slots[i].start, slots[i].end;
    var rest' := ReplaceSlot(s[d..], obj, rest, n - d, i - 1, lit, v);
    var t := Splice(s, a, b, lit);
    SpliceTail(s, a, b, lit, d);
    ValueStart(lit);
    KeepFirst(s, obj, slot, c, a, b, lit);
    SlotsMore(t, obj, false, slot, c, d);
    PrependParts([slot], More(t[d..], obj, false), d);
    slots' := [slot] + Shift(rest', d);
    ReplacedLater(slot, rest, rest', d, i - 1, |lit|, v);
  }

  lemma PrependParts(slots: seq<Slot>, rest: Parsed<seq<Slot>>, d: nat)
    requires rest.Ok?
    ensures Prepend(slots, rest, d) == Ok(slots + Shift(rest.value, d), d + rest.used)
  {
  }

  lemma ReplaceHead(s: string, obj: bool, slot: Slot, c: nat, d: nat, lit: string, v: Value) returns (slots': seq<Slot>)
    requires OneSlot(s, obj) == Ok(slot, c) && c < |s| && s[c] == ',' && d == c + 1 + Skip(s[c + 1..])
    requires Slots(s, obj, false).Ok? && More(s[d..], obj, false).Ok? && Exact(lit, v)
    ensures Slots(Splice(s, slot.start, slot.end, lit), obj, false)
            == Ok(slots', Slots(s, obj, false).used + |lit| - (slot.end - slot.start))
    ensures Replaced(Slots(s, obj, false).value, slots', 0, |lit|, v)
  {
    hide OneSlot, Slots, Skip, Prepend, Replaced, More, ParseValue;
    SlotsMore(s, obj, false, slot, c, d);
    var rest := More(s[d..], obj, false);
    PrependParts([slot], rest, d);
    FirstReplaced(s, obj, slot, c, lit, v);
    var delta := |lit| - (slot.end - slot.start);
    var t := Splice(s, slot.start, slot.end, lit);
    var slot' := Slot(slot.key, slot.start, slot.start + |lit|, v);
    assert t[c + delta] == t[c + delta..][0] == s[c];
    assert t[c + delta + 1..] == t[c + delta..][1..] == s[c..][1..] == s[c + 1..];
    assert t[d + delta..] == t[c + delta..][d - c..] == s[c..][d - c..] == s[d..];
    SlotsMore(t, obj, false, slot', c + delta, d + delta);
    PrependParts([slot'], rest, d + delta);
    slots' := [slot'] + Shift(rest.value, d + delta);
    ReplacedFirst(slot, rest.value, d, d + delta, |lit|, v);
  }

  lemma KeepFirst(s: string, obj: bool, slot: Slot, c: nat, a: nat, b: nat, lit: string)
    requires OneSlot(s, obj) == Ok(slot, c) && c < |s| && s[c] == ',' && c + 1 + Skip(s[c + 1..]) <= a <= b <= |s|
    requires c + 1 + Skip(s[c + 1..]) == a ==> lit != "" && !Ws(lit[0])
    ensures var t := Splice(s, a, b, lit);
            OneSlot(t, obj) == OneSlot(s, obj) && t[c] == s[c] && Skip(t[c + 1..]) == Skip(s[c + 1..])
  {
    hide OneSlot, Skip;
    var t := Splice(s, a, b, lit);
    assert s[..a] == t[..a];
    AgreeLess(s, t, a, c + 1);
    OneSlotLocal(s, t, obj, slot, c);
    assert t[a..] == lit + s[b..];
    SkipAt(s, t, c + 1, a);
  }

  // Adding a member

  /** The member that field_edit writes after the last one. */
  ghost function Addition(name: Str, lit: string): string { ", " + Dumps(name) + ": " + lit }

  ghost function Added(name: Str, at: nat, lit: string, v: Value): Slot {
    Slot(name, at + |Dumps(name)| + 2, at + |Dumps(name)| + 2 + |lit|, v)
  }

  /** A body that consists of one written member. */
  lemma OnlyMember(name: Str, lit: string, v: Value, rest: string)
    requires Exact(lit, v) && Skip(rest) < |rest| && rest[Skip(rest)] == '}'
    ensures Slots(Dumps(name) + ": " + lit + rest, true, false)
            == Ok([Added(name, 0, lit, v)], |Dumps(name)| + 2 + |lit| + Skip(rest) + 1)
  {
    hide OneSlot, Skip, Slots, ParseValue, Escaped;
    var t := Dumps(name) + ": " + lit + rest;
    SkipFacts(rest);
    MemberReads(name, lit, v, rest);
    var c := |Dumps(name)| + 2 + |lit| + Skip(rest);
    assert t[c] == rest[Skip(rest)];
    SlotsLast(t, true, false, Added(name, 0, lit, v), c);
  }

  /** A new member written after the last one is read as one more member; nothing before it changes. */
  lemma {:induction false} AppendSlot(s: string, slots: seq<Slot>, n: nat, name: Str, lit: string, v: Value)
    requires Slots(s, true, false) == Ok(slots, n) && Exact(lit, v)
    ensures slots[|slots| - 1].end < n
    ensures var e := slots[|slots| - 1].end;
            Slots(Splice(s, e, e, Addition(name, lit)), true, false)
            == Ok(slots + [Added(name, e + 2, lit, v)], n + |Addition(name, lit)|)
    decreases |s|
  {
    hide OneSlot, Slots, Skip, Prepend, Ordered, ParseValue, Splice, Shift, Addition, Added;
    SlotsShape(s, true, false);
    var Ok(slot, c) := OneSlot(s, true);
    var d := c + 1 + Skip(s[c + 1..]);
    if s[c] == '}' {
      SlotsLast(s, true, false, slot, c);
      AppendOnly(s, slot, c, name, lit, v);
      assert [slot] + [Added(name, slot.end + 2, lit, v)] == [slot, Added(name, slot.end + 2, lit, v)];
    } else {
      SlotsMore(s, true, false, slot, c, d);
      var rest := More(s[d..], true, false).value;
      PrependParts([slot], More(s[d..], true, false), d);
      AppendSlot(s[d..], rest, n - d, name, lit, v);
      ConsAt(slot, rest, d, |rest| - 1);
      var e := slots[|slots| - 1].end;
      SlotsOrdered(s[d..], true, false);
      var t := Splice(s, e, e, Addition(name, lit));
      SpliceTail(s, e, e, Addition(name, lit), d);
      KeepFirst(s, true, slot, c, e, e, Addition(name, lit));
      SlotsMore(t, true, false, slot, c, d);
      PrependParts([slot], More(t[d..], true, false), d);
      AppendedShift(slot, rest, d, name, e, lit, v);
    }
  }

  lemma {:induction false} ShiftAppend(x: seq<Slot>, y: seq<Slot>, d: nat)
    ensures Shift(x + y, d) == Shift(x, d) + Shift(y, d)
  {
    if x == [] {
      assert x + y == y;
    } else {
      assert (x + y)[1..] == x[1..] + y;
      ShiftAppend(x[1..], y, d);
    }
  }

  lemma AppendedShift(slot: Slot, rest: seq<Slot>, d: nat, name: Str, e: nat, lit: string, v: Value)
    requires d <= e
    ensures [slot] + Shift(rest + [Added(name, e - d + 2, lit, v)], d)
            == ([slot] + Shift(rest, d)) + [Added(name, e + 2, lit, v)]
  {
    ShiftAppend(rest, [Added(name, e - d + 2, lit, v)], d);
  }

  lemma AppendedText(s: string, e: nat, name: Str, lit: string)
    requires e <= |s|
    ensures var t := Splice(s, e, e, Addition(name, lit));
            && |t| == |s| + |Addition(name, lit)| && |t| > e
            && t[e] == ','
            && t[e + 1..] == " " + (Dumps(name) + ": " + lit + s[e..])
            && t[e + 2..] == Dumps(name) + ": " + lit + s[e..]
    ensures |Addition(name, lit)| == |Dumps(name)| + 4 + |lit| && Addition(name, lit)[0] == ','
    ensures Skip(" " + (Dumps(name) + ": " + lit + s[e..])) == 1
  {
    hide Escaped;
    assert (" " + (Dumps(name) + ": " + lit + s[e..]))[1..] == Dumps(name) + ": " + lit + s[e..];
  }

  lemma AppendOnly(s: string, slot: Slot, c: nat, name: Str, lit: string, v: Value)
    requires OneSlot(s, true) == Ok(slot, c) && c < |s| && s[c] == '}' && Exact(lit, v)
    ensures Slots(Splice(s, slot.end, slot.end, Addition(name, lit)), true, false)
            == Ok([slot, Added(name, slot.end + 2, lit, v)], c + 1 + |Addition(name, lit)|)
  {
    hide OneSlot, Slots, Skip, Exact, Dumps, Splice, Addition, Head, ParseValue;
    var e := slot.end;
    SlotShape(s, true, slot, c);
    var rest, tail := s[e..], Dumps(name) + ": " + lit + s[e..];
    assert rest[Skip(rest)] == s[c];
    AppendedText(s, e, name, lit);
    FirstKept(s, slot, c, Addition(name, lit));
    var t := Splice(s, e, e, Addition(name, lit));
    assert t[e + 2..] == tail;
    AppendOnlyAt(t, e, slot, rest, name, lit, v);
  }

  lemma AppendOnlyAt(t: string, e: nat, slot: Slot, rest: string, name: Str, lit: string, v: Value)
    requires OneSlot(t, true) == Ok(slot, e) && e + 2 <= |t| && t[e] == ',' && Skip(t[e + 1..]) == 1
    requires t[e + 2..] == Dumps(name) + ": " + lit + rest
    requires Exact(lit, v) && Skip(rest) < |rest| && rest[Skip(rest)] == '}'
    ensures Slots(t, true, false) == Ok([slot, Added(name, e + 2, lit, v)], e + |Dumps(name)| + |lit| + Skip(rest) + 5)
  {
    hide OneSlot, Slots, Skip, Exact, Dumps;
    OnlyInner(t, e + 2, name, lit, v, rest);
    var m := |Dumps(name)| + 2 + |lit| + Skip(rest) + 1;
    TwoSlots(t, slot, e, Added(name, 0, lit, v), m, Added(name, e + 2, lit, v), e + 2 + m);
  }

  lemma OnlyInner(t: string, a: nat, name: Str, lit: string, v: Value, rest: string)
    requires Exact(lit, v) && Skip(rest) < |rest| && rest[Skip(rest)] == '}'
    requires a <= |t| && t[a..] == Dumps(name) + ": " + lit + rest
    ensures Slots(t[a..], true, false) == Ok([Added(name, 0, lit, v)], |Dumps(name)| + 2 + |lit| + Skip(rest) + 1)
  {
    hide Slots, Skip, Exact, Dumps;
    OnlyMember(name, lit, v, rest);
  }

  lemma FirstKept(s: string, slot: Slot, c: nat, add: string)
    requires OneSlot(s, true) == Ok(slot, c) && add != "" && add[0] == ','
    ensures OneSlot(Splice(s, slot.end, slot.end, add), true) == Ok(slot, slot.end)
  {
    hide OneSlot, Skip, ParseValue;
    assert Splice(s, slot.end, slot.end, add)
        == s[..slot.start] + s[slot.start..slot.end] + (add + s[slot.end..]);
    SlotShape(s, true, slot, c);
    OwnText(s, slot.start, slot.value, slot.end - slot.start);
    SkipIs(add + s[slot.end..], 0);
    FirstFollowed(s, true, slot, c, s[slot.start..slot.end], slot.value, add + s[slot.end..]);
  }

  lemma TwoSlots(t: string, slot: Slot, e: nat, second: Slot, m: nat, moved: Slot, used: nat)
    requires OneSlot(t, true) == Ok(slot, e) && e + 2 <= |t| && t[e] == ',' && Skip(t[e + 1..]) == 1
    requires Slots(t[e + 2..], true, false) == Ok([second], m)
    requires moved == Slot(second.key, second.start + e + 2, second.end + e + 2, second.value) && used == e + 2 + m
    ensures Slots(t, true, false) == Ok([slot, moved], used)
  {
    hide OneSlot, Slots, Skip, Prepend;
    SlotsMore(t, true, false, slot, e, e + 2);
    PrependParts([slot], More(t[e + 2..], true, false), e + 2);
    ConsAt(slot, [second], e + 2, 0);
    assert [slot] + Shift([second], e + 2) == [slot, moved];
  }

  /** The text a value was read from is, alone, the text of that value. */
  lemma OwnText(s: string, b: nat, v: Value, n: nat)
    requires b <= |s| && ParseValue(s[b..]) == Ok(v, n)
    ensures b + n <= |s| && Exact(s[b..b + n], v)
  {
    hide ParseValue;
    var own := s[b..b + n];
    assert s[b..][..n] == own == own[..n];
    ValueLocal(s[b..], own);
  }
}
