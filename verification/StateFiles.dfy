/** The files of scripts/ops/cloud-build-fallback/control.py:24-42: what save writes, read reads back. A state file is a
    document of nested lists and dictionaries, written over several lines. */
module StateFiles {
  import opened Json
  import opened JsonFacts
  import opened JsonEdit
  import opened JsonLayout

  /** A Python value as json.dump walks through it: a dictionary keeps the order of its members, and those of a list
      have no name. */
  datatype Tree = Plain(value: Value) | Node(dict: bool, members: seq<Member>)

  datatype Member = Member(name: Str, tree: Tree)

  // What it means

  ghost function FieldsOf(members: seq<Member>): map<Str, Value> {
    if members == [] then map[] else FieldsOf(members[1..])[members[0].name := Meaning(members[0].tree)]
  }

  ghost function ItemsOf(members: seq<Member>): seq<Value> {
    if members == [] then [] else [Meaning(members[0].tree)] + ItemsOf(members[1..])
  }

  ghost function Meaning(t: Tree): Value {
    match t
    case Plain(v) => v
    case Node(dict, members) => if dict then Object(FieldsOf(members)) else Array(ItemsOf(members))
  }

  /** Names of a dictionary are distinct, and a number is written as JSON writes it. */
  ghost predicate Proper(t: Tree) {
    match t
    case Plain(v) =>
      && (v.Number? ==> v.lexeme != "" && NumberLength(v.lexeme) == |v.lexeme|)
      && !v.Array? && !v.Object?
    case Node(dict, members) =>
      && (dict ==> forall i, j | 0 <= i < j < |members| :: members[i].name != members[j].name)
      && (!dict ==> forall m | m in members :: m.name == [])
      && forall m | m in members :: Proper(m.tree)
  }

  // Numbers, as section 6 of RFC 8259 writes them

  ghost predicate Digits(s: string) { s != "" && forall i | 0 <= i < |s| :: '0' <= s[i] <= '9' }

  ghost predicate Whole(s: string) { s == "0" || (Digits(s) && s[0] != '0') }

  ghost predicate Fraction(s: string) { s == "" || (s[0] == '.' && Digits(s[1..])) }

  ghost predicate Exponent(s: string) {
    s == "" || ((s[0] == 'e' || s[0] == 'E')
                && (Digits(s[1..]) || (|s| > 1 && (s[1] == '+' || s[1] == '-') && Digits(s[2..]))))
  }

  lemma RunOfDigits(s: string, n: nat, rest: string)
    requires n <= |s| && Digits(s[n..]) && (rest != "" ==> !Digit(rest[0]))
    ensures DigitRun((s + rest)[n..]) == |s| - n
  {
    var text := (s + rest)[n..];
    forall i | 0 <= i < |s| - n ensures Digit(text[i]) { assert text[i] == s[n..][i]; }
    DigitRunIs(text, |s| - n);
  }

  lemma WholeRead(s: string, rest: string)
    requires Whole(s) && (rest != "" ==> !Digit(rest[0]))
    ensures IntegerLength(s + rest) == |s|
  {
    if s != "0" {
      assert s[0..] == s && (s + rest)[0..] == s + rest;
      RunOfDigits(s, 0, rest);
    }
  }

  lemma FractionRead(s: string, rest: string)
    requires Fraction(s) && (rest != "" ==> !Digit(rest[0]) && rest[0] != '.')
    ensures FractionLength(s + rest) == |s|
  {
    if s != "" {
      RunOfDigits(s, 1, rest);
      assert '0' <= s[1..][0] <= '9';
    }
  }

  lemma ExponentRead(s: string)
    requires Exponent(s)
    ensures ExponentLength(s) == |s|
  {
    if s != "" {
      assert s + "" == s;
      if Digits(s[1..]) {
        assert '0' <= s[1..][0] <= '9';
        RunOfDigits(s, 1, "");
      } else {
        RunOfDigits(s, 2, "");
      }
    }
  }

  /** The sign, the whole part, the fraction and the exponent, one after the other. */
  ghost predicate Shaped(s: string, k: nat, a: nat, b: nat) {
    k < a <= b <= |s| && (s[..k] == "" || s[..k] == "-")
    && Whole(s[k..a]) && Fraction(s[a..b]) && Exponent(s[b..])
  }

  /** What follows the whole part neither is a digit nor, after a fraction, a point. */
  lemma AfterWhole(s: string, a: nat, b: nat)
    requires a <= b <= |s| && Fraction(s[a..b]) && Exponent(s[b..])
    ensures a < |s| ==> !Digit(s[a])
    ensures b < |s| ==> !Digit(s[b]) && s[b] != '.'
  {
    hide Digits;
    if a < b { assert s[a..b][0] == s[a]; }
    if b < |s| { assert s[b..][0] == s[b]; }
  }

  lemma WholeIn(s: string, k: nat, a: nat)
    requires k <= a <= |s| && Whole(s[k..a]) && (a < |s| ==> !Digit(s[a]))
    ensures IntegerLength(s[k..]) == a - k
  {
    hide IntegerLength, Whole;
    assert s[k..] == s[k..a] + s[a..];
    WholeRead(s[k..a], s[a..]);
  }

  lemma FractionIn(s: string, a: nat, b: nat)
    requires a <= b <= |s| && Fraction(s[a..b]) && (b < |s| ==> !Digit(s[b]) && s[b] != '.')
    ensures FractionLength(s[a..]) == b - a
  {
    hide FractionLength, Fraction;
    assert s[a..] == s[a..b] + s[b..];
    FractionRead(s[a..b], s[b..]);
  }

  /** Whatever is shaped so is read as one number, to its end. */
  lemma NumberRead(s: string, k: nat, a: nat, b: nat)
    requires Shaped(s, k, a, b)
    ensures NumberLength(s) == |s|
  {
    hide IntegerLength, FractionLength, ExponentLength, NumberLength, Whole, Fraction, Exponent;
    AfterWhole(s, a, b);
    WholeIn(s, k, a);
    FractionIn(s, a, b);
    ExponentRead(s[b..]);
    WholeFirst(s[k..a]);
    assert s[k..a][0] == s[k] && s[0] == if k == 0 then s[k] else s[..k][0];
    NumberIs(s, k, a, b, |s|);
  }

  lemma WholeFirst(whole: string)
    requires Whole(whole)
    ensures whole != "" && whole[0] != '-'
  {
    assert '0' <= whole[0] <= '9';
  }

  lemma {:induction false} DigitRunDigits(s: string)
    ensures forall i | 0 <= i < DigitRun(s) :: Digit(s[i])
  {
    if s != "" && Digit(s[0]) { DigitRunDigits(s[1..]); }
  }

  lemma Between(s: string, a: nat, b: nat)
    requires a <= b <= |s|
    ensures s[a..][..b - a] == s[a..b]
  {
  }

  /** And nothing else is. */
  lemma NumberForm(s: string) returns (k: nat, a: nat, b: nat)
    requires s != "" && NumberLength(s) == |s|
    ensures Shaped(s, k, a, b)
  {
    hide IntegerLength, FractionLength, ExponentLength, Whole, Fraction, Exponent;
    k := SignLength(s);
    a := k + IntegerLength(s[k..]);
    b := a + FractionLength(s[a..]);
    WholeForm(s[k..]);
    FractionForm(s[a..]);
    ExponentForm(s[b..]);
    Between(s, k, a);
    Between(s, a, b);
    Between(s, b, |s|);
    assert s[b..|s|] == s[b..];
  }

  /** The numbers are exactly these. */
  lemma NumberShape(s: string)
    ensures s != "" && NumberLength(s) == |s| <==> exists k, a, b :: Shaped(s, k, a, b)
  {
    hide NumberLength, Whole, Fraction, Exponent;
    if s != "" && NumberLength(s) == |s| {
      var k, a, b := NumberForm(s);
    }
    if k, a, b :| Shaped(s, k, a, b) { NumberRead(s, k, a, b); }
  }

  lemma WholeForm(s: string)
    requires IntegerLength(s) > 0
    ensures Whole(s[..IntegerLength(s)])
  {
    DigitRunDigits(s);
  }

  lemma FractionForm(s: string)
    ensures Fraction(s[..FractionLength(s)])
  {
    if FractionLength(s) > 0 { DigitRunDigits(s[1..]); }
  }

  lemma ExponentForm(s: string)
    ensures Exponent(s[..ExponentLength(s)])
  {
    var n := ExponentLength(s);
    if n > 0 {
      var sign := if |s| > 1 && (s[1] == '+' || s[1] == '-') then 1 else 0;
      DigitRunDigits(s[1 + sign..]);
      assert s[..n][1 + sign..] == s[1 + sign..][..n - 1 - sign];
    }
  }

  // json.dump with an indent of two

  function Spaces(n: nat): string { if n == 0 then "" else " " + Spaces(n - 1) }

  function NewLine(depth: nat): string { "\n" + Spaces(2 * depth) }

  function WriteMembers(members: seq<Member>, dict: bool, depth: nat): string
    requires members != []
  {
    (if dict then Dumps(members[0].name) + ": " else "") + Write(members[0].tree, depth + 1)
    + if |members| == 1 then NewLine(depth) + [Close(dict)]
      else "," + NewLine(depth + 1) + WriteMembers(members[1..], dict, depth)
  }

  function Write(t: Tree, depth: nat): string {
    match t
    case Plain(Null) => "null"
    case Plain(True) => "true"
    case Plain(False) => "false"
    case Plain(Number(lexeme)) => lexeme
    case Plain(Text(units)) => Dumps(units)
    case Plain(_) => ""
    case Node(dict, members) =>
      (if dict then "{" else "[")
      + if members == [] then [Close(dict)] else NewLine(depth + 1) + WriteMembers(members, dict, depth)
  }

  // Reading it back

  lemma {:induction false} SpacesAre(n: nat)
    ensures |Spaces(n)| == n && forall i | 0 <= i < n :: Spaces(n)[i] == ' '
  {
    if n > 0 { SpacesAre(n - 1); }
  }

  /** A new line is skipped, up to what follows it. */
  lemma NewLineSkipped(depth: nat, rest: string)
    requires rest != "" && !Ws(rest[0])
    ensures Skip(NewLine(depth) + rest) == |NewLine(depth)|
  {
    SpacesAre(2 * depth);
    var n := NewLine(depth);
    assert (n + rest)[|n|] == rest[0];
    forall i | 0 <= i < |n| ensures Ws((n + rest)[i]) { assert (n + rest)[i] == n[i]; }
    SkipIs(n + rest, |n|);
  }

  /** The slots read from the members, one by one. */
  ghost predicate SlotsAre(slots: seq<Slot>, members: seq<Member>) {
    |slots| == |members|
    && forall i | 0 <= i < |slots| :: slots[i].key == members[i].name && slots[i].value == Meaning(members[i].tree)
  }

  lemma {:induction false} SlotsMean(slots: seq<Slot>, members: seq<Member>)
    requires SlotsAre(slots, members)
    ensures Fields(slots) == FieldsOf(members) && Items(slots) == ItemsOf(members)
  {
    hide Meaning;
    if members != [] { SlotsMean(slots[1..], members[1..]); }
  }

  lemma SlotsCons(slot: Slot, more: seq<Slot>, d: nat, members: seq<Member>)
    requires members != [] && slot.key == members[0].name && slot.value == Meaning(members[0].tree)
    requires SlotsAre(more, members[1..])
    ensures SlotsAre([slot] + Shift(more, d), members)
  {
    hide Meaning;
    var slots := [slot] + Shift(more, d);
    forall i | 0 <= i < |slots|
      ensures slots[i].key == members[i].name && slots[i].value == Meaning(members[i].tree)
    {
      if i > 0 {
        ShiftAt(more, d, i - 1);
        assert members[1..][i - 1] == members[i];
      }
    }
  }

  /** One member, with what follows its value. */
  lemma MemberRead(m: Member, dict: bool, lit: string, rest: string)
    requires Exact(lit, Meaning(m.tree)) && (!dict ==> m.name == []) && rest != "" && Delimiter(rest[0])
    ensures var head := if dict then Dumps(m.name) + ": " else "";
            OneSlot(head + lit + rest, dict)
            == Ok(Slot(m.name, |head|, |head| + |lit|, Meaning(m.tree)), |head| + |lit| + Skip(rest))
  {
    hide Exact, Meaning, ParseValue, Skip, Escaped;
    if dict {
      MemberReads(m.name, lit, Meaning(m.tree), rest);
    } else {
      LiteralReads(lit, Meaning(m.tree), rest);
      assert (lit + rest)[0..] == lit + rest && "" + lit + rest == lit + rest;
      assert (lit + rest)[|lit|..] == rest;
      SlotParts(lit + rest, false, [], 0, Meaning(m.tree), |lit|);
    }
  }

  lemma WrittenStarts(t: Tree, depth: nat)
    requires Proper(t)
    ensures Write(t, depth) != "" && !Ws(Write(t, depth)[0])
  {
    if t.Plain? && t.value.Number? { NumberStart(t.value.lexeme); }
  }

  lemma MembersStart(members: seq<Member>, dict: bool, depth: nat)
    requires members != [] && Proper(members[0].tree)
    ensures WriteMembers(members, dict, depth) != "" && !Ws(WriteMembers(members, dict, depth)[0])
  {
    hide Write;
    WrittenStarts(members[0].tree, depth + 1);
  }

  /** The last member, with the end of its list. */
  lemma LastRead(m: Member, dict: bool, lit: string, depth: nat) returns (slot: Slot)
    requires Exact(lit, Meaning(m.tree)) && (!dict ==> m.name == [])
    ensures var text := (if dict then Dumps(m.name) + ": " else "") + lit + (NewLine(depth) + [Close(dict)]);
            Slots(text, dict, false) == Ok([slot], |text|)
    ensures slot.key == m.name && slot.value == Meaning(m.tree)
  {
    hide Exact, Meaning, OneSlot, Slots, Skip, Dumps, ParseValue;
    var head, rest := if dict then Dumps(m.name) + ": " else "", NewLine(depth) + [Close(dict)];
    NewLineSkipped(depth, [Close(dict)]);
    MemberRead(m, dict, lit, rest);
    var text, c := head + lit + rest, |head| + |lit| + |NewLine(depth)|;
    slot := OneSlot(text, dict).value;
    assert text[c] == Close(dict);
    SlotsLast(text, dict, false, slot, c);
  }

  /** A member before others. */
  lemma NextRead(m: Member, dict: bool, lit: string, depth: nat, tail: string, more: seq<Slot>)
    returns (slots: seq<Slot>)
    requires Exact(lit, Meaning(m.tree)) && (!dict ==> m.name == [])
    requires Slots(tail, dict, false) == Ok(more, |tail|) && tail != "" && !Ws(tail[0])
    ensures var text := (if dict then Dumps(m.name) + ": " else "") + lit + ("," + NewLine(depth) + tail);
            Slots(text, dict, false) == Ok(slots, |text|)
    ensures exists slot: Slot, d: nat ::
              slot.key == m.name && slot.value == Meaning(m.tree) && slots == [slot] + Shift(more, d)
  {
    hide Exact, Meaning, OneSlot, Slots, Skip, Dumps, ParseValue;
    var head, rest := if dict then Dumps(m.name) + ": " else "", "," + NewLine(depth) + tail;
    SkipIs(rest, 0);
    MemberRead(m, dict, lit, rest);
    var text, c := head + lit + rest, |head| + |lit|;
    var slot, d := OneSlot(text, dict).value, c + 1 + |NewLine(depth)|;
    assert text[c] == rest[0];
    assert text[c + 1..] == NewLine(depth) + tail;
    NewLineSkipped(depth, tail);
    SlotsMore(text, dict, false, slot, c, d);
    assert text[d..] == tail;
    slots := [slot] + Shift(more, d);
  }

  lemma {:induction false} MembersRead(members: seq<Member>, dict: bool, depth: nat) returns (slots: seq<Slot>)
    requires members != [] && (forall m | m in members :: Proper(m.tree) && (!dict ==> m.name == []))
    ensures Slots(WriteMembers(members, dict, depth), dict, false) == Ok(slots, |WriteMembers(members, dict, depth)|)
    ensures SlotsAre(slots, members)
    decreases members
  {
    hide Exact, Meaning, Proper, Write, Slots, NewLine, Dumps;
    var m := members[0];
    var lit := Write(m.tree, depth + 1);
    WriteReads(m.tree, depth + 1);
    if |members| == 1 {
      var slot := LastRead(m, dict, lit, depth);
      slots := [slot];
    } else {
      var more := MembersRead(members[1..], dict, depth);
      MembersStart(members[1..], dict, depth);
      slots := NextRead(m, dict, lit, depth + 1, WriteMembers(members[1..], dict, depth), more);
      var slot: Slot, d: nat :|
        slot.key == m.name && slot.value == Meaning(m.tree) && slots == [slot] + Shift(more, d);
      SlotsCons(slot, more, d, members);
    }
  }

  lemma PlainReads(t: Tree, depth: nat)
    requires t.Plain? && Proper(t)
    ensures Exact(Write(t, depth), Meaning(t))
  {
    hide Escaped;
    var s := Write(t, depth);
    match t.value
    case Text(units) =>
      DumpsReads(units, "");
      assert s[1..] == Escaped(units) + "\"" + "";
    case Number(lexeme) =>
      NumberStart(lexeme);
      NumberValue(lexeme);
      assert lexeme[..|lexeme|] == lexeme;
    case _ =>
  }

  lemma Distinct(slots: seq<Slot>, members: seq<Member>)
    requires SlotsAre(slots, members) && forall i, j | 0 <= i < j < |members| :: members[i].name != members[j].name
    ensures UniqueKeys(slots)
  {
    hide Meaning;
  }

  lemma EmptyReads(dict: bool)
    ensures var s := (if dict then "{" else "[") + [Close(dict)];
            ParseValue(s) == Ok(if dict then Object(map[]) else Array([]), |s|)
  {
    var s := (if dict then "{" else "[") + [Close(dict)];
    assert s[1..] == [Close(dict)];
    SkipIs(s[1..], 0);
    BracketIs(s, dict, 1, [], 1);
  }

  /** json.loads reads what json.dump wrote. */
  lemma {:induction false} WriteReads(t: Tree, depth: nat)
    requires Proper(t)
    ensures Exact(Write(t, depth), Meaning(t))
    decreases t
  {
    hide Slots, Body, Skip, NewLine, UniqueKeys, Fields, Items, FieldsOf, ItemsOf;
    if t.Plain? {
      PlainReads(t, depth);
    } else if t.members == [] {
      EmptyReads(t.dict);
      assert FieldsOf([]) == map[] && ItemsOf([]) == [] by { SlotsMean([], []); EmptyMeans(); }
    } else {
      var slots := MembersRead(t.members, t.dict, depth);
      SlotsMean(slots, t.members);
      if t.dict { Distinct(slots, t.members); }
      var inner := WriteMembers(t.members, t.dict, depth);
      NodeReads(t.dict, depth, inner, slots);
    }
  }

  lemma EmptyMeans()
    ensures FieldsOf([]) == map[] && ItemsOf([]) == []
  {
  }

  /** The bracket, the new line and the members. */
  lemma NodeReads(dict: bool, depth: nat, inner: string, slots: seq<Slot>)
    requires Slots(inner, dict, false) == Ok(slots, |inner|) && (dict ==> UniqueKeys(slots))
    ensures var s := (if dict then "{" else "[") + (NewLine(depth + 1) + inner);
            ParseValue(s) == Ok(if dict then Object(Fields(slots)) else Array(Items(slots)), |s|)
  {
    hide Slots, Body, NewLine, Skip, UniqueKeys, Fields, Items, ParseValue;
    SlotsStart(inner, dict, false);
    var s, n := (if dict then "{" else "[") + (NewLine(depth + 1) + inner), NewLine(depth + 1);
    assert s[1..] == n + inner;
    NewLineSkipped(depth + 1, inner);
    assert s[1 + |n|..] == inner;
    BracketIs(s, dict, 1 + |n|, slots, |inner|);
  }

  /** What save wrote, read returns. */
  lemma ReadsWhatWasSaved(t: Tree)
    requires Proper(t)
    ensures Decode(Write(t, 0)) == Ok(Meaning(t), |Write(t, 0)|)
  {
    hide ParseValue, Write, Meaning, Skip;
    var s := Write(t, 0);
    WriteReads(t, 0);
    WrittenStarts(t, 0);
    SkipIs(s, 0);
    assert s[0..] == s && s[|s|..] == "";
    SkipIs(s[|s|..], 0);
  }
}
