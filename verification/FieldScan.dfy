/** The position scanner and the field splice of scripts/pin_reconnections_catalog.py:30-73. */
module FieldScan {
  import opened Json
  import opened JsonFacts
  import opened JsonEdit
  import opened JsonLayout

  datatype Span = Span(start: nat, end: nat)

  /** A replacement of text[start..end]. */
  datatype Edit = Edit(start: nat, end: nat, replacement: string)

  /** What the scanner finds in the bracketed text at `start`: member positions, and where the closing bracket is.
      It accepts a comma before the bracket, which the decoder does not. */
  function Scan(text: string, start: nat, obj: bool): (r: Parsed<seq<Slot>>)
    requires start <= |text|
  {
    var pos := start + Skip(text[start..]);
    if pos >= |text| || text[pos] != Open(obj) then Fail
    else
      var a := pos + 1 + Skip(text[pos + 1..]);
      match Prepend([], Body(text[a..], obj, true), a)
      case Fail => Fail
      case Ok(slots, n) => if obj && !UniqueKeys(slots) then Fail else Ok(slots, n - 1)
  }

  ghost function Spans(slots: seq<Slot>): map<Str, Span> {
    if slots == [] then map[]
    else
      var last := slots[|slots| - 1];
      Spans(slots[..|slots| - 1])[last.key := Span(last.start, last.end)]
  }

  lemma {:induction false} SpansKeys(slots: seq<Slot>)
    ensures forall k :: k in Spans(slots) <==> exists i :: 0 <= i < |slots| && slots[i].key == k
    ensures UniqueKeys(slots) ==>
              forall i | 0 <= i < |slots| :: Spans(slots)[slots[i].key] == Span(slots[i].start, slots[i].end)
  {
    if slots != [] {
      var init := slots[..|slots| - 1];
      SpansKeys(init);
      assert forall i | 0 <= i < |init| :: slots[i] == init[i];
    }
  }

  // The scanner as it runs

  method SkipFrom(text: string, start: nat) returns (pos: nat)
    requires start <= |text|
    ensures pos == start + Skip(text[start..])
    ensures pos <= |text|
  {
    pos := start;
    while pos < |text| && Ws(text[pos])
      invariant start <= pos <= |text|
      invariant forall i | start <= i < pos :: Ws(text[i])
    {
      pos := pos + 1;
    }
    SkipIs(text[start..], pos - start);
  }

  lemma KeyReads(s: string)
    requires ParseValue(s).Ok? && ParseValue(s).value.Text?
    ensures s[0] == '"' && StringBody(s[1..]) == Ok(ParseValue(s).value.units, ParseValue(s).used - 1)
  {
    hide Body, Skip, NumberLength, StringBody;
  }

  lemma KeyNeeded(s: string) returns (k: nat)
    requires Head(s, true).Ok?
    ensures k <= |s| && ParseValue(s) == Ok(Text(Head(s, true).value), k)
    ensures k + Skip(s[k..]) < |s| && s[k + Skip(s[k..])] == ':'
  {
    hide ParseValue, Skip, StringBody;
    TextReads(s);
    k := 1 + StringBody(s[1..]).used;
  }

  lemma TextReads(s: string)
    requires s != [] && s[0] == '"' && StringBody(s[1..]).Ok?
    ensures ParseValue(s) == Ok(Text(StringBody(s[1..]).value), 1 + StringBody(s[1..]).used)
  {
    hide Body, NumberLength, StringBody;
  }

  lemma HeadAfterKey(s: string, k: nat, a: nat)
    requires ParseValue(s).Ok? && ParseValue(s).value.Text? && k == ParseValue(s).used
    requires a == k + Skip(s[k..]) && a < |s| && s[a] == ':'
    ensures Head(s, true) == Ok(ParseValue(s).value.units, a + 1 + Skip(s[a + 1..]))
  {
    hide ParseValue, Skip, StringBody;
    KeyReads(s);
  }

  lemma {:induction false} ShiftShift(slots: seq<Slot>, d: nat, e: nat)
    ensures Shift(Shift(slots, d), e) == Shift(slots, d + e)
  {
    if slots != [] { ShiftShift(slots[1..], d, e); }
  }

  lemma PrependTwice(done: seq<Slot>, slot: Slot, rest: Parsed<seq<Slot>>, d: nat, pos: nat)
    ensures Prepend(done, Prepend([slot], rest, d), pos)
         == Prepend(done + [Slot(slot.key, slot.start + pos, slot.end + pos, slot.value)], rest, pos + d)
  {
    if rest.Ok? {
      ShiftShift(rest.value, d, pos);
      ShiftAppend([slot], Shift(rest.value, d), pos);
      ShiftOne(slot, pos);
      assert done + (Shift([slot], pos) + Shift(rest.value, pos + d))
             == (done + Shift([slot], pos)) + Shift(rest.value, pos + d);
    }
  }

  lemma SpansSnoc(done: seq<Slot>, x: Slot)
    ensures Spans(done + [x]) == Spans(done)[x.key := Span(x.start, x.end)]
  {
    assert (done + [x])[..|done|] == done;
  }

  /** A key seen twice makes the object unreadable whatever follows. */
  lemma DuplicateKey(done: seq<Slot>, slot: Slot, rest: Parsed<seq<Slot>>, d: nat, pos: nat)
    requires rest.Ok? && slot.key in Spans(done)
    ensures !UniqueKeys(Prepend(done, Prepend([slot], rest, d), pos).value)
  {
    PrependTwice(done, slot, rest, d, pos);
    SpansKeys(done);
    var i :| 0 <= i < |done| && done[i].key == slot.key;
    var all := Prepend(done, Prepend([slot], rest, d), pos).value;
    assert all[i].key == all[|done|].key;
  }

  lemma FirstKeyRepeats(done: seq<Slot>, s: string, key: Str, pos: nat)
    requires Slots(s, true, true).Ok? && Head(s, true).Ok? && Head(s, true).value == key && key in Spans(done)
    ensures !UniqueKeys(Prepend(done, Slots(s, true, true), pos).value)
  {
    hide OneSlot, Slots, Skip, Prepend, ParseValue, Head, UniqueKeys;
    SlotsShape(s, true, true);
    var Ok(slot, c) := OneSlot(s, true);
    SlotShape(s, true, slot, c);
    if s[c] == '}' {
      SlotsLast(s, true, true, slot, c);
      EmptyRest(slot, c + 1);
      DuplicateKey(done, slot, Ok([], c + 1), 0, pos);
    } else {
      var d := c + 1 + Skip(s[c + 1..]);
      SlotsMore(s, true, true, slot, c, d);
      PrependFails([slot], More(s[d..], true, true), d);
      DuplicateKey(done, slot, More(s[d..], true, true), d, pos);
    }
  }

  lemma EmptyRest(slot: Slot, n: nat)
    ensures Prepend([slot], Ok([], n), 0) == Ok([slot], n)
  {
    assert [slot] + Shift([], 0) == [slot];
  }

  lemma PrependFails(slots: seq<Slot>, rest: Parsed<seq<Slot>>, d: nat)
    ensures Prepend(slots, rest, d).Ok? <==> rest.Ok?
  {
  }

  lemma BodyNotClosed(s: string, lax: bool)
    requires s != [] && s[0] != '}'
    ensures Body(s, true, lax) == Slots(s, true, lax)
  {
    hide Slots;
  }

  /** One member read at `pos`: its colon, the span of its value and the comma or bracket after it. */
  ghost predicate MemberAt(text: string, pos: nat, colon: nat, start: nat, end: nat, next: nat) {
    && pos < colon < start < end <= next < |text|
    && ParseValue(text[pos..]).Ok? && ParseValue(text[pos..]).value.Text?
    && colon == pos + ParseValue(text[pos..]).used + Skip(text[pos + ParseValue(text[pos..]).used..])
    && text[colon] == ':'
    && start == colon + 1 + Skip(text[colon + 1..])
    && ParseValue(text[start..]).Ok? && end == start + ParseValue(text[start..]).used
    && next == end + Skip(text[end..])
    && text[next] in {',', '}'}
  }

  ghost function KeyAt(text: string, pos: nat): Str
    requires pos <= |text| && ParseValue(text[pos..]).Ok? && ParseValue(text[pos..]).value.Text?
  {
    ParseValue(text[pos..]).value.units
  }

  lemma TailOf(text: string, pos: nat, k: nat)
    requires pos + k <= |text|
    ensures text[pos..][k..] == text[pos + k..]
  {
  }

  /** Where the grammar reads a member, the scanner finds one. */
  lemma MemberNeeded(text: string, pos: nat) returns (colon: nat, start: nat, end: nat, next: nat)
    requires pos < |text| && Slots(text[pos..], true, true).Ok?
    ensures MemberAt(text, pos, colon, start, end, next)
  {
    hide OneSlot, Slots, Skip, ParseValue, Head, MemberAt;
    var k, a, slot, c := MemberParts(text[pos..]);
    colon, start, end, next := pos + a, pos + slot.start, pos + slot.end, pos + c;
    MemberFrom(text, pos, text[pos..], k, a, slot.start, slot.end, c);
  }

  lemma MemberParts(s: string) returns (k: nat, a: nat, slot: Slot, c: nat)
    requires Slots(s, true, true).Ok?
    ensures ParseValue(s).Ok? && ParseValue(s).value.Text? && k == ParseValue(s).used
    ensures a == k + Skip(s[k..]) && a < |s| && s[a] == ':' && slot.start == a + 1 + Skip(s[a + 1..])
    ensures ParseValue(s[slot.start..]).Ok? && slot.end == slot.start + ParseValue(s[slot.start..]).used
    ensures c == slot.end + Skip(s[slot.end..]) && c < |s| && s[c] in {',', '}'}
  {
    hide OneSlot, Slots, Skip, ParseValue, Head;
    SlotsShape(s, true, true);
    slot, c := OneSlot(s, true).value, OneSlot(s, true).used;
    SlotShape(s, true, slot, c);
    k := KeyNeeded(s);
    a := k + Skip(s[k..]);
    HeadAfterKey(s, k, a);
  }

  lemma MemberFrom(text: string, pos: nat, s: string, k: nat, a: nat, b: nat, e: nat, c: nat)
    requires pos <= |text| && s == text[pos..] && ParseValue(s).Ok? && ParseValue(s).value.Text?
             && k == ParseValue(s).used
    requires a == k + Skip(s[k..]) && a < |s| && s[a] == ':' && b == a + 1 + Skip(s[a + 1..])
    requires ParseValue(s[b..]).Ok? && e == b + ParseValue(s[b..]).used && c == e + Skip(s[e..])
    requires c < |s| && s[c] in {',', '}'}
    ensures MemberAt(text, pos, pos + a, pos + b, pos + e, pos + c)
  {
    hide Skip, ParseValue;
    TailOf(text, pos, k);
    TailOf(text, pos, a + 1);
    TailOf(text, pos, b);
    TailOf(text, pos, e);
  }

  lemma NoKey(text: string, pos: nat)
    requires pos < |text| && !(ParseValue(text[pos..]).Ok? && ParseValue(text[pos..]).value.Text?)
    ensures Slots(text[pos..], true, true).Fail?
  {
    hide Slots, Skip, ParseValue;
    if Slots(text[pos..], true, true).Ok? { var c, b, e, n := MemberNeeded(text, pos); }
  }

  lemma NoColon(text: string, pos: nat, colon: nat)
    requires pos < |text| && ParseValue(text[pos..]).Ok?
    requires colon == pos + ParseValue(text[pos..]).used + Skip(text[pos + ParseValue(text[pos..]).used..])
    requires colon >= |text| || text[colon] != ':'
    ensures Slots(text[pos..], true, true).Fail?
  {
    hide Slots, Skip, ParseValue;
    if Slots(text[pos..], true, true).Ok? { var c, b, e, n := MemberNeeded(text, pos); }
  }

  lemma NoValue(text: string, pos: nat, colon: nat, start: nat)
    requires pos < |text| && ParseValue(text[pos..]).Ok? && colon < |text|
    requires colon == pos + ParseValue(text[pos..]).used + Skip(text[pos + ParseValue(text[pos..]).used..])
    requires start == colon + 1 + Skip(text[colon + 1..]) && ParseValue(text[start..]).Fail?
    ensures Slots(text[pos..], true, true).Fail?
  {
    hide Slots, Skip, ParseValue;
    if Slots(text[pos..], true, true).Ok? { var c, b, e, n := MemberNeeded(text, pos); }
  }

  lemma NoSeparator(text: string, pos: nat, colon: nat, start: nat, end: nat, next: nat)
    requires pos < |text| && ParseValue(text[pos..]).Ok? && colon < |text|
    requires colon == pos + ParseValue(text[pos..]).used + Skip(text[pos + ParseValue(text[pos..]).used..])
    requires start == colon + 1 + Skip(text[colon + 1..]) && ParseValue(text[start..]).Ok?
    requires end == start + ParseValue(text[start..]).used && next == end + Skip(text[end..])
    requires next >= |text| || text[next] !in {',', '}'}
    ensures Slots(text[pos..], true, true).Fail?
  {
    hide Slots, Skip, ParseValue;
    if Slots(text[pos..], true, true).Ok? { var c, b, e, n := MemberNeeded(text, pos); }
  }

  lemma MemberReads(text: string, pos: nat, colon: nat, start: nat, end: nat, next: nat)
    requires MemberAt(text, pos, colon, start, end, next)
    ensures OneSlot(text[pos..], true)
         == Ok(Slot(KeyAt(text, pos), start - pos, end - pos, ParseValue(text[start..]).value), next - pos)
  {
    hide OneSlot, Skip, ParseValue, Head;
    var s := text[pos..];
    var k := ParseValue(s).used;
    TailOf(text, pos, k);
    TailOf(text, pos, colon + 1 - pos);
    TailOf(text, pos, start - pos);
    TailOf(text, pos, end - pos);
    HeadAfterKey(s, k, colon - pos);
    SlotParts(s, true, KeyAt(text, pos), start - pos, ParseValue(text[start..]).value, end - start);
  }

  lemma StepClose(text: string, pos: nat, colon: nat, start: nat, end: nat, next: nat, done: seq<Slot>)
    requires MemberAt(text, pos, colon, start, end, next) && text[next] == '}' && text[pos] != '}'
    ensures Prepend(done, Body(text[pos..], true, true), pos)
         == Ok(done + [Slot(KeyAt(text, pos), start, end, ParseValue(text[start..]).value)], next + 1)
  {
    hide OneSlot, Slots, Skip, ParseValue, Prepend;
    MemberReads(text, pos, colon, start, end, next);
    var slot := Slot(KeyAt(text, pos), start - pos, end - pos, ParseValue(text[start..]).value);
    SlotsLast(text[pos..], true, true, slot, next - pos);
    BodyNotClosed(text[pos..], true);
    LastSlot(done, slot, next - pos, pos);
  }

  lemma StepComma(text: string, pos: nat, colon: nat, start: nat, end: nat, next: nat, done: seq<Slot>)
    requires MemberAt(text, pos, colon, start, end, next) && text[next] == ',' && text[pos] != '}'
    ensures Prepend(done, Body(text[pos..], true, true), pos)
         == Prepend(done + [Slot(KeyAt(text, pos), start, end, ParseValue(text[start..]).value)],
                    Body(text[next + 1 + Skip(text[next + 1..])..], true, true), next + 1 + Skip(text[next + 1..]))
  {
    hide OneSlot, Slots, Skip, ParseValue, Prepend, Body;
    MemberReads(text, pos, colon, start, end, next);
    var s := text[pos..];
    var slot := Slot(KeyAt(text, pos), start - pos, end - pos, ParseValue(text[start..]).value);
    TailOf(text, pos, next + 1 - pos);
    var d := next + 1 - pos + Skip(s[next + 1 - pos..]);
    SlotsMore(s, true, true, slot, next - pos, d);
    BodyNotClosed(s, true);
    PrependTwice(done, slot, More(s[d..], true, true), d, pos);
    TailOf(text, pos, d);
    MoreLax(s[d..]);
  }

  lemma StepRepeats(text: string, pos: nat, done: seq<Slot>)
    requires pos < |text| && text[pos] != '}'
    requires ParseValue(text[pos..]).Ok? && ParseValue(text[pos..]).value.Text? && KeyAt(text, pos) in Spans(done)
    ensures var all := Prepend(done, Body(text[pos..], true, true), pos);
            all.Ok? ==> !UniqueKeys(all.value)
  {
    hide OneSlot, Slots, Skip, ParseValue, Head, Prepend, UniqueKeys;
    BodyNotClosed(text[pos..], true);
    PrependFails(done, Slots(text[pos..], true, true), pos);
    if Slots(text[pos..], true, true).Ok? {
      SlotsShape(text[pos..], true, true);
      SlotShape(text[pos..], true, OneSlot(text[pos..], true).value, OneSlot(text[pos..], true).used);
      var k := KeyNeeded(text[pos..]);
      FirstKeyRepeats(done, text[pos..], KeyAt(text, pos), pos);
    }
  }

  /** One pass of the loop up to the comma or bracket: the key, the span of the value and where the pass ends. */
  method OneMember(text: string, pos: nat, fields: map<Str, Span>)
    returns (ok: bool, key: Str, span: Span, next: nat, ghost colon: nat)
    requires pos < |text|
    ensures ok ==> MemberAt(text, pos, colon, span.start, span.end, next) && key == KeyAt(text, pos) && key !in fields
    ensures !ok ==> Slots(text[pos..], true, true).Fail?
                    || (ParseValue(text[pos..]).Ok? && ParseValue(text[pos..]).value.Text?
                        && KeyAt(text, pos) in fields)
  {
    hide ParseValue, Skip, Slots;
    ok, key, span, next, colon := false, [], Span(0, 0), 0, 0;
    var name := ParseValue(text[pos..]);
    if name.Fail? || !name.value.Text? {
      NoKey(text, pos);
      return;
    }
    key := name.value.units;
    if key in fields { return; }
    var sep := SkipFrom(text, pos + name.used);
    colon := sep;
    if sep >= |text| || text[sep] != ':' {
      NoColon(text, pos, sep);
      return;
    }
    var start := SkipFrom(text, sep + 1);
    var value := ParseValue(text[start..]);
    if value.Fail? {
      NoValue(text, pos, sep, start);
      return;
    }
    span := Span(start, start + value.used);
    next := SkipFrom(text, span.end);
    if next >= |text| || (text[next] != '}' && text[next] != ',') {
      NoSeparator(text, pos, sep, start, span.end, next);
      return;
    }
    ok := true;
  }

  /** object_fields: the span of every member's value, or a failure exactly when there is no such object. */
  method ObjectFields(text: string, start: nat) returns (r: Parsed<map<Str, Span>>)
    requires start <= |text|
    ensures r == match Scan(text, start, true)
                 case Fail => Fail
                 case Ok(slots, closing) => Ok(Spans(slots), closing)
  {
    hide ParseValue, Skip, Slots, Body, Prepend, UniqueKeys, Spans, MemberAt;
    var pos := SkipFrom(text, start);
    if pos >= |text| || text[pos] != '{' { return Fail; }
    pos := SkipFrom(text, pos + 1);
    ghost var all := Prepend([], Body(text[pos..], true, true), pos);
    assert Scan(text, start, true)
        == if all.Ok? && UniqueKeys(all.value) then Ok(all.value, all.used - 1) else Fail;
    hide Scan;
    var fields: map<Str, Span> := map[];
    ghost var done: seq<Slot> := [];
    NoKeys();
    while pos < |text| && text[pos] != '}'
      invariant pos <= |text| && fields == Spans(done) && UniqueKeys(done)
      invariant all == Prepend(done, Body(text[pos..], true, true), pos)
      decreases |text| - pos
    {
      BodyNotClosed(text[pos..], true);
      PrependFails(done, Slots(text[pos..], true, true), pos);
      var ok, key, span, next, colon := OneMember(text, pos, fields);
      if !ok {
        if Slots(text[pos..], true, true).Ok? { StepRepeats(text, pos, done); }
        return Fail;
      }
      MemberBounds(text, pos, colon, span.start, span.end, next);
      fields := fields[key := span];
      ghost var here := Slot(key, span.start, span.end, ParseValue(text[span.start..]).value);
      SpansSnoc(done, here);
      UniqueSnoc(done, here);
      if text[next] == '}' {
        StepClose(text, pos, colon, span.start, span.end, next, done);
        return Ok(fields, next);
      }
      StepComma(text, pos, colon, span.start, span.end, next, done);
      done := done + [here];
      pos := SkipFrom(text, next + 1);
    }
    if pos >= |text| {
      NothingLeft(text[pos..]);
      PrependFails(done, Body(text[pos..], true, true), pos);
      return Fail;
    }
    ClosedBody(text[pos..]);
    EmptyTail(done, pos);
    return Ok(fields, pos);
  }

  lemma MemberBounds(text: string, pos: nat, colon: nat, start: nat, end: nat, next: nat)
    requires MemberAt(text, pos, colon, start, end, next)
    ensures pos < start < end <= next < |text| && (text[next] == '}' || text[next] == ',')
    ensures ParseValue(text[start..]).Ok?
  {
    hide ParseValue, Skip;
  }

  lemma NoKeys()
    ensures UniqueKeys([]) && Spans([]) == map[]
  {
  }

  lemma UniqueSnoc(done: seq<Slot>, x: Slot)
    requires UniqueKeys(done) && x.key !in Spans(done)
    ensures UniqueKeys(done + [x])
  {
    SpansKeys(done);
  }

  lemma LastSlot(done: seq<Slot>, slot: Slot, c: nat, pos: nat)
    ensures Prepend(done, Ok([slot], c + 1), pos)
         == Ok(done + [Slot(slot.key, slot.start + pos, slot.end + pos, slot.value)], pos + c + 1)
  {
    ShiftOne(slot, pos);
  }

  lemma EmptyTail(done: seq<Slot>, pos: nat)
    ensures Prepend(done, Ok([], 1), pos) == Ok(done, pos + 1)
  {
    assert done + Shift([], pos) == done;
  }

  lemma ClosedBody(s: string)
    requires s != [] && s[0] == '}'
    ensures Body(s, true, true) == Ok([], 1)
  {
  }

  lemma NothingLeft(s: string)
    requires s == []
    ensures Body(s, true, true).Fail?
  {
    hide ParseValue, Skip;
  }

  lemma MoreLax(s: string)
    ensures More(s, true, true) == Body(s, true, true)
  {
    hide Body;
  }

  // The scanner agrees with the decoder

  lemma {:induction false} LaxSlots(s: string, obj: bool)
    requires Slots(s, obj, false).Ok?
    ensures Slots(s, obj, true) == Slots(s, obj, false)
    decreases |s|
  {
    hide OneSlot, Slots, Skip, Prepend, Body;
    SlotsShape(s, obj, false);
    var Ok(slot, c) := OneSlot(s, obj);
    if s[c] == Close(obj) {
      SlotsLast(s, obj, false, slot, c);
      SlotsLast(s, obj, true, slot, c);
    } else {
      var d := c + 1 + Skip(s[c + 1..]);
      SlotsMore(s, obj, false, slot, c, d);
      SlotsMore(s, obj, true, slot, c, d);
      PrependFails([slot], More(s[d..], obj, false), d);
      LaxSlots(s[d..], obj);
      SlotsStart(s[d..], obj, true);
    }
  }

  lemma LaxBody(s: string, obj: bool)
    requires Body(s, obj, false).Ok?
    ensures Body(s, obj, true) == Body(s, obj, false)
  {
    hide Slots;
    if s[0] != Close(obj) { LaxSlots(s, obj); }
  }

  /** On the text of an object or array, wherever it stands, the scanner reports exactly its members. */
  lemma ScanLaid(text: string, p: nat, q: nat, obj: bool, slots: seq<Slot>)
    requires p <= q <= |text| && Laid(text[p..q], obj, slots)
    ensures p < q && Scan(text, p, obj) == Ok(Shift(slots, p), q - 1)
  {
    hide Skip, Shift, Slots, Body, UniqueKeys, Laid;
    var t := text[p..q];
    LaidOpen(t, obj, slots);
    var a := 1 + Skip(t[1..]);
    LaidBody(t, obj, slots, a);
    var rel := Body(t[a..], obj, false).value;
    assert t[0] == text[p..][0];
    SkipIs(text[p..], 0);
    assert Body(t[a..], obj, false).used > 0;
    assert Agree(t, text[p..], q - p) by { assert text[p..][..q - p] == t == t[..q - p]; }
    SkipAt(t, text[p..], 1, q - p);
    TailOf(text, p, 1);
    TailOf(text, p, a);
    AgreeTail(t, text[p..], a, q - p);
    BodyLocal(t[a..], text[p + a..], obj, false);
    LaxBody(text[p + a..], obj);
    EmptyPrefix(rel, p + a, q - p - a);
    ShiftShift(rel, a, p);
    ShiftFacts(rel, a + p);
  }

  lemma EmptyPrefix(rel: seq<Slot>, d: nat, n: nat)
    ensures Prepend([], Ok(rel, n), d) == Ok(Shift(rel, d), d + n)
  {
    assert [] + Shift(rel, d) == Shift(rel, d);
  }

  // field_edit and set_field

  function Find(slots: seq<Slot>, name: Str): (i: nat)
    ensures i <= |slots|
    ensures i < |slots| ==> slots[i].key == name
    ensures forall j | 0 <= j < i :: slots[j].key != name
  {
    if slots == [] || slots[0].key == name then 0 else 1 + Find(slots[1..], name)
  }

  function MaxEnd(slots: seq<Slot>): nat
    requires slots != []
  {
    if |slots| == 1 then slots[0].end
    else
      var m := MaxEnd(slots[1..]);
      if slots[0].end > m then slots[0].end else m
  }

  /** Where and what set_field writes. */
  function FieldEdit(text: string, name: Str, literal: string): Option<Edit> {
    match Scan(text, 0, true)
    case Fail => None
    case Ok(slots, closing) =>
      var i := Find(slots, name);
      if i < |slots| then Some(Edit(slots[i].start, slots[i].end, literal))
      else
        var insertion := if slots == [] then closing else MaxEnd(slots);
        Some(Edit(insertion, insertion, (if slots == [] then "" else ", ") + Dumps(name) + ": " + literal))
  }

  function Apply(text: string, e: Edit): string
    requires e.start <= e.end <= |text|
  {
    Splice(text, e.start, e.end, e.replacement)
  }

  /** The furthest end is the end of the last member. */
  lemma {:induction false} MaxEndIsLast(slots: seq<Slot>, n: nat)
    requires slots != [] && Ordered(slots, n)
    ensures MaxEnd(slots) == slots[|slots| - 1].end
  {
    if |slots| > 1 {
      assert Ordered(slots[1..], n) by {
        forall i, j | 0 <= i < j < |slots| - 1 ensures slots[1..][i].end < slots[1..][j].start {
          assert slots[i + 1].end < slots[j + 1].start;
        }
      }
      MaxEndIsLast(slots[1..], n);
      assert slots[0].end < slots[|slots| - 1].start;
    }
  }

  /** The members of an object after set_field. */
  ghost predicate FieldSet(t: string, slots: seq<Slot>, slots': seq<Slot>, name: Str, lit: string, v: Value) {
    var i := Find(slots, name);
    if i < |slots| then Replaced(slots, slots', i, |lit|, v)
    else if slots == [] then t != "" && slots' == [Added(name, |t| - 1, lit, v)]
    else slots' == slots + [Added(name, slots[|slots| - 1].end + 2, lit, v)]
  }

  /** Setting a field of an object's text: one splice strictly inside the braces, and the members that result. */
  lemma SetFieldLaid(t: string, slots: seq<Slot>, name: Str, lit: string, v: Value) returns (e: Edit, slots': seq<Slot>)
    requires Laid(t, true, slots) && Exact(lit, v)
    ensures FieldEdit(t, name, lit) == Some(e) && 0 < e.start <= e.end < |t|
    ensures Laid(Apply(t, e), true, slots') && FieldSet(t, slots, slots', name, lit, v)
    ensures Find(slots, name) < |slots| ==> e == Edit(slots[Find(slots, name)].start, slots[Find(slots, name)].end, lit)
    ensures Find(slots, name) == |slots| ==> e.start == e.end
    ensures Find(slots, name) == |slots| && slots != [] ==> e.start == slots[|slots| - 1].end
  {
    hide Skip, Slots, Body, Shift, Laid, Scan, Exact, UniqueKeys, Dumps;
    LaidOpen(t, true, slots);
    assert t[0..|t|] == t;
    ScanLaid(t, 0, |t|, true, slots);
    ShiftZero(slots);
    LaidSlots(t, true, slots);
    var i := Find(slots, name);
    e := FieldEdit(t, name, lit).value;
    if i < |slots| {
      slots' := ReplaceLaid(t, true, slots, i, lit, v);
    } else if slots == [] {
      FillLaid(t, name, lit, v);
      assert "" + Dumps(name) + ": " + lit == Dumps(name) + ": " + lit;
      slots' := [Added(name, |t| - 1, lit, v)];
    } else {
      MaxEndIsLast(slots, |t|);
      AppendLaid(t, slots, name, lit, v);
      slots' := slots + [Added(name, slots[|slots| - 1].end + 2, lit, v)];
    }
  }

  lemma {:induction false} ShiftZero(slots: seq<Slot>)
    ensures Shift(slots, 0) == slots
  {
    if slots != [] { ShiftZero(slots[1..]); }
  }
}
