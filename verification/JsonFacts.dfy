/** What the grammar guarantees about positions, and that a text's meaning depends only on the text itself:
    a value, a member or a whole bracketed body reads the same wherever the same characters stand. */
module JsonFacts {
  import opened Json

  // Spans

  lemma SlotsLast(s: string, obj: bool, lax: bool, slot: Slot, c: nat)
    requires OneSlot(s, obj) == Ok(slot, c) && c < |s| && s[c] == Close(obj)
    ensures Slots(s, obj, lax) == Ok([slot], c + 1)
  {
    hide OneSlot, More, Prepend, Skip;
  }

  lemma SlotsMore(s: string, obj: bool, lax: bool, slot: Slot, c: nat, d: nat)
    requires OneSlot(s, obj) == Ok(slot, c) && c < |s| && s[c] == ',' && d == c + 1 + Skip(s[c + 1..])
    ensures Slots(s, obj, lax) == Prepend([slot], More(s[d..], obj, lax), d)
  {
    hide OneSlot, More, Prepend, Skip;
  }

  lemma SlotsShape(s: string, obj: bool, lax: bool)
    requires Slots(s, obj, lax).Ok?
    ensures OneSlot(s, obj).Ok? && OneSlot(s, obj).used < |s|
    ensures s[OneSlot(s, obj).used] == Close(obj) || s[OneSlot(s, obj).used] == ','
  {
  }

  lemma {:induction false} SlotsOrdered(s: string, obj: bool, lax: bool)
    requires Slots(s, obj, lax).Ok?
    ensures Ordered(Slots(s, obj, lax).value, Slots(s, obj, lax).used)
    decreases |s|, 1
  {
    SlotsShape(s, obj, lax);
    var Ok(slot, c) := OneSlot(s, obj);
    if s[c] == Close(obj) {
      SlotsLast(s, obj, lax, slot, c);
    } else {
      var d := c + 1 + Skip(s[c + 1..]);
      var rest := More(s[d..], obj, lax);
      SlotsMore(s, obj, lax, slot, c, d);
      if lax { BodyOrdered(s[d..], obj, lax); } else { SlotsOrdered(s[d..], obj, lax); }
      OrderedCons(slot, rest.value, d, rest.used);
    }
  }

  lemma {:induction false} BodyOrdered(s: string, obj: bool, lax: bool)
    requires Body(s, obj, lax).Ok?
    ensures Ordered(Body(s, obj, lax).value, Body(s, obj, lax).used)
    decreases |s|, 2
  {
    if s[0] != Close(obj) { SlotsOrdered(s, obj, lax); }
  }

  lemma {:induction false} ShiftAt(slots: seq<Slot>, d: nat, i: nat)
    requires i < |slots|
    ensures Shift(slots, d)[i] == Slot(slots[i].key, slots[i].start + d, slots[i].end + d, slots[i].value)
  {
    if i > 0 { ShiftAt(slots[1..], d, i - 1); }
  }

  lemma OrderedCons(slot: Slot, rest: seq<Slot>, d: nat, n: nat)
    requires slot.start < slot.end < d && Ordered(rest, n) && n > 0
    ensures Ordered([slot] + Shift(rest, d), d + n)
  {
    var all := [slot] + Shift(rest, d);
    forall i | 0 <= i < |rest|
      ensures all[i + 1] == Slot(rest[i].key, rest[i].start + d, rest[i].end + d, rest[i].value)
    {
      ShiftAt(rest, d, i);
    }
    forall i, j | 0 <= i < j < |all| ensures all[i].end < all[j].start {
      assert all[j] == all[(j - 1) + 1] && rest[j - 1].start >= 0;
      if i > 0 { assert all[i] == all[(i - 1) + 1]; assert rest[i - 1].end < rest[j - 1].start; }
    }
    forall i | 0 <= i < |all| ensures all[i].start < all[i].end < d + n {
      if i > 0 { assert all[i] == all[(i - 1) + 1]; assert rest[i - 1].end < n; }
    }
  }

  // Locality of the lexical parts

  /** How many leading characters are white space, from the outside. */
  lemma {:induction false} SkipIs(s: string, n: nat)
    requires n <= |s| && (forall i | 0 <= i < n :: Ws(s[i])) && (n < |s| ==> !Ws(s[n]))
    ensures Skip(s) == n
  {
    if n > 0 { SkipIs(s[1..], n - 1); }
  }

  lemma {:induction false} DigitRunIs(s: string, n: nat)
    requires n <= |s| && (forall i | 0 <= i < n :: Digit(s[i])) && (n < |s| ==> !Digit(s[n]))
    ensures DigitRun(s) == n
  {
    if n > 0 { DigitRunIs(s[1..], n - 1); }
  }

  ghost predicate Agree(s: string, t: string, n: nat) { n <= |s| && n <= |t| && s[..n] == t[..n] }

  lemma AgreeTail(s: string, t: string, a: nat, n: nat)
    requires a <= n && Agree(s, t, n)
    ensures Agree(s[a..], t[a..], n - a)
    ensures forall i | 0 <= i < n :: s[i] == t[i]
  {
    assert s[a..][..n - a] == s[..n][a..] && t[a..][..n - a] == t[..n][a..];
    forall i | 0 <= i < n ensures s[i] == t[i] { assert s[i] == s[..n][i] && t[i] == t[..n][i]; }
  }

  lemma {:induction false} SkipFacts(s: string)
    ensures Skip(s) < |s| ==> !Ws(s[Skip(s)])
    ensures forall i | 0 <= i < Skip(s) :: Ws(s[i])
  {
    if Skip(s) > 0 { SkipFacts(s[1..]); }
  }

  lemma {:induction false} DigitRunFacts(s: string)
    ensures DigitRun(s) < |s| ==> !Digit(s[DigitRun(s)])
    ensures forall i | 0 <= i < DigitRun(s) :: Digit(s[i])
  {
    if DigitRun(s) > 0 { DigitRunFacts(s[1..]); }
  }

  lemma SkipLocal(s: string, t: string)
    requires Agree(s, t, Skip(s)) && Skip(s) < |t| && !Ws(t[Skip(s)])
    ensures Skip(t) == Skip(s)
  {
    AgreeTail(s, t, 0, Skip(s));
    SkipFacts(s);
    SkipIs(t, Skip(s));
  }

  lemma EscapeLocal(s: string, t: string)
    requires Escape(s).Ok? && Agree(s, t, Escape(s).used)
    ensures Escape(t) == Escape(s)
  {
    AgreeTail(s, t, 0, Escape(s).used);
  }

  lemma {:induction false} StringLocal(s: string, t: string)
    requires StringBody(s).Ok? && Agree(s, t, StringBody(s).used)
    ensures StringBody(t) == StringBody(s)
  {
    var n := StringBody(s).used;
    AgreeTail(s, t, 0, n);
    if s[0] == '\\' {
      var k := Escape(s[1..]).used;
      AgreeTail(s, t, 1, n);
      AgreeTail(s, t, 1 + k, n);
      assert s[1..][..n - 1][..k] == s[1..][..k] && t[1..][..n - 1][..k] == t[1..][..k];
      EscapeLocal(s[1..], t[1..]);
      StringLocal(s[1 + k..], t[1 + k..]);
    } else if s[0] != '"' {
      AgreeTail(s, t, 1, n);
      StringLocal(s[1..], t[1..]);
    }
  }

  /** A text ends here, or goes on with something no number can contain. */
  ghost predicate Follows(t: string, n: nat) { n == |t| || (n < |t| && Delimiter(t[n])) }

  lemma DigitRunLocal(s: string, t: string, n: nat)
    requires DigitRun(s) <= n && Agree(s, t, n) && Follows(t, n)
    ensures DigitRun(t) == DigitRun(s)
  {
    AgreeTail(s, t, 0, n);
    DigitRunFacts(s);
    DigitRunIs(t, DigitRun(s));
  }

  lemma ExponentLocal(s: string, t: string, n: nat)
    requires n == ExponentLength(s) && Agree(s, t, n) && Follows(t, n)
    ensures ExponentLength(t) == n
  {
    AgreeTail(s, t, 0, n);
    if n > 0 {
      var sign := if |s| > 1 && (s[1] == '+' || s[1] == '-') then 1 else 0;
      AgreeTail(s, t, 1 + sign, n);
      DigitRunLocal(s[1 + sign..], t[1 + sign..], n - 1 - sign);
    }
  }

  lemma FractionLocal(s: string, t: string, n: nat)
    requires FractionLength(s) <= n && Agree(s, t, n) && Follows(t, n)
    ensures FractionLength(t) == FractionLength(s)
  {
    AgreeTail(s, t, 0, n);
    if FractionLength(s) > 0 {
      AgreeTail(s, t, 1, n);
      DigitRunLocal(s[1..], t[1..], n - 1);
    }
  }

  lemma IntegerLocal(s: string, t: string, n: nat)
    requires 0 < IntegerLength(s) <= n && Agree(s, t, n) && Follows(t, n)
    ensures IntegerLength(t) == IntegerLength(s)
  {
    AgreeTail(s, t, 0, n);
    if s[0] != '0' { DigitRunLocal(s, t, n); }
  }

  /** The four parts of a number end at the given places. */
  ghost predicate NumberParts(s: string, sign: nat, a: nat, b: nat, n: nat) {
    && sign < a <= b <= n <= |s|
    && SignLength(s) == sign
    && IntegerLength(s[sign..]) == a - sign
    && FractionLength(s[a..]) == b - a
    && ExponentLength(s[b..]) == n - b
  }

  lemma IntegerAt(s: string, t: string, k: nat, n: nat)
    requires k < n && Agree(s, t, n) && Follows(t, n) && 0 < IntegerLength(s[k..]) <= n - k
    ensures IntegerLength(t[k..]) == IntegerLength(s[k..])
  {
    AgreeTail(s, t, k, n);
    IntegerLocal(s[k..], t[k..], n - k);
  }

  lemma FractionAt(s: string, t: string, k: nat, n: nat)
    requires k <= n && Agree(s, t, n) && Follows(t, n) && FractionLength(s[k..]) <= n - k
    ensures FractionLength(t[k..]) == FractionLength(s[k..])
  {
    AgreeTail(s, t, k, n);
    FractionLocal(s[k..], t[k..], n - k);
  }

  lemma ExponentAt(s: string, t: string, k: nat, n: nat)
    requires k <= n && Agree(s, t, n) && Follows(t, n) && ExponentLength(s[k..]) == n - k
    ensures ExponentLength(t[k..]) == n - k
  {
    AgreeTail(s, t, k, n);
    ExponentLocal(s[k..], t[k..], n - k);
  }

  lemma PartsLocal(s: string, t: string, sign: nat, a: nat, b: nat, n: nat)
    requires NumberParts(s, sign, a, b, n) && Agree(s, t, n) && Follows(t, n)
    ensures NumberParts(t, sign, a, b, n)
  {
    IntegerAt(s, t, sign, n);
    FractionAt(s, t, a, n);
    ExponentAt(s, t, b, n);
    assert s[0] == s[..n][0] == t[..n][0] == t[0];
  }

  lemma NumberIs(s: string, sign: nat, a: nat, b: nat, n: nat)
    requires NumberParts(s, sign, a, b, n)
    ensures NumberLength(s) == n
  {
  }

  lemma NumberLocal(s: string, t: string)
    requires NumberLength(s) > 0 && Agree(s, t, NumberLength(s)) && Follows(t, NumberLength(s))
    ensures NumberLength(t) == NumberLength(s)
  {
    var n := NumberLength(s);
    var sign := SignLength(s);
    var a := sign + IntegerLength(s[sign..]);
    var b := a + FractionLength(s[a..]);
    assert NumberParts(s, sign, a, b, n);
    PartsLocal(s, t, sign, a, b, n);
    NumberIs(t, sign, a, b, n);
  }

  // Locality of values

  /** Nothing that starts a value is white space. */
  lemma ValueStart(s: string)
    requires ParseValue(s).Ok?
    ensures s != [] && !Ws(s[0])
  {
    hide Body, StringBody, FractionLength, ExponentLength;
  }

  lemma HeadLocal(s: string, t: string, obj: bool)
    requires Head(s, obj).Ok? && Agree(s, t, Head(s, obj).used)
    requires Head(s, obj).used < |t| && !Ws(t[Head(s, obj).used])
    ensures Head(t, obj) == Head(s, obj)
  {
    hide StringBody, Skip;
    if obj {
      var Ok(key, b) := Head(s, obj);
      var k := StringBody(s[1..]).used;
      var a := 1 + k + Skip(s[1 + k..]);
      assert b == a + 1 + Skip(s[a + 1..]);
      assert StringBody(t[1..]) == StringBody(s[1..]) by {
        AgreeTail(s, t, 1, b);
        assert Agree(s[1..], t[1..], k) by { AgreeLess(s[1..], t[1..], b - 1, k); }
        StringLocal(s[1..], t[1..]);
      }
      AgreeTail(s, t, 0, b);
      assert Skip(t[1 + k..]) == Skip(s[1 + k..]) by { SkipAt(s, t, 1 + k, b); }
      assert Skip(t[a + 1..]) == Skip(s[a + 1..]) by { SkipAt(s, t, a + 1, b); }
    }
  }

  lemma AgreeLess(s: string, t: string, n: nat, k: nat)
    requires Agree(s, t, n) && k <= n
    ensures Agree(s, t, k)
  {
    assert s[..k] == s[..n][..k] && t[..k] == t[..n][..k];
  }

  /** A run of white space that ends inside the common part, or right at its end. */
  lemma SkipAt(s: string, t: string, k: nat, n: nat)
    requires k <= n && Agree(s, t, n) && k + Skip(s[k..]) <= n
    requires k + Skip(s[k..]) == n ==> n < |t| && !Ws(t[n])
    ensures Skip(t[k..]) == Skip(s[k..])
  {
    hide Skip;
    AgreeTail(s, t, k, n);
    AgreeLess(s[k..], t[k..], n - k, Skip(s[k..]));
    SkipFacts(s[k..]);
    if k + Skip(s[k..]) < n { assert t[k..][Skip(s[k..])] == s[k..][Skip(s[k..])]; }
    SkipLocal(s[k..], t[k..]);
  }

  lemma {:induction false} ValueLocal(s: string, t: string)
    requires ParseValue(s).Ok? && Agree(s, t, ParseValue(s).used) && Follows(t, ParseValue(s).used)
    ensures ParseValue(t) == ParseValue(s)
    decreases |s|, 1
  {
    hide Body, StringBody, Skip;
    var n := ParseValue(s).used;
    AgreeTail(s, t, 0, n);
    if s[0] == '"' {
      AgreeTail(s, t, 1, n);
      StringLocal(s[1..], t[1..]);
    } else if s[0] == '{' || s[0] == '[' {
      BracketLocal(s, t, s[0] == '{');
    } else {
      ScalarLocal(s, t);
    }
  }

  lemma NumberValue(s: string)
    requires s != [] && (s[0] == '-' || Digit(s[0]))
    ensures ParseValue(s) == if NumberLength(s) == 0 then Fail else Ok(Number(s[..NumberLength(s)]), NumberLength(s))
  {
    hide Body, StringBody, Skip, NumberLength;
  }

  lemma NumberStart(s: string)
    requires NumberLength(s) > 0
    ensures s[0] == '-' || Digit(s[0])
  {
    hide FractionLength, ExponentLength;
  }

  lemma LiteralLocal(s: string, t: string, word: string)
    requires word in ["null", "true", "false"] && word <= s && Agree(s, t, |word|)
    ensures ParseValue(t) == ParseValue(s) && ParseValue(s).Ok? && ParseValue(s).used == |word|
  {
    hide Body, StringBody, Skip, NumberLength;
    assert t[..|word|] == word;
    assert word <= t;
    assert s[0] == word[0] == t[0];
  }

  lemma ScalarLocal(s: string, t: string)
    requires ParseValue(s).Ok? && s[0] !in {'"', '{', '['}
    requires Agree(s, t, ParseValue(s).used) && Follows(t, ParseValue(s).used)
    ensures ParseValue(t) == ParseValue(s)
  {
    hide Body, StringBody, Skip, NumberLength;
    if "null" <= s {
      LiteralLocal(s, t, "null");
    } else if "true" <= s {
      LiteralLocal(s, t, "true");
    } else if "false" <= s {
      LiteralLocal(s, t, "false");
    } else {
      ScalarNumber(s);
      NumberScalarLocal(s, t);
    }
  }

  lemma ScalarNumber(s: string)
    requires ParseValue(s).Ok? && s[0] !in {'"', '{', '['}
    requires !("null" <= s) && !("true" <= s) && !("false" <= s)
    ensures ParseValue(s).used == NumberLength(s) > 0
  {
    hide Body, StringBody, Skip, NumberLength;
  }

  lemma NumberScalarLocal(s: string, t: string)
    requires NumberLength(s) > 0 && Agree(s, t, NumberLength(s)) && Follows(t, NumberLength(s))
    ensures ParseValue(t) == ParseValue(s)
  {
    hide ParseValue, NumberLength;
    NumberStart(s);
    NumberLocal(s, t);
    NumberStart(t);
    NumberValue(s);
    NumberValue(t);
  }

  lemma BracketIs(s: string, obj: bool, a: nat, slots: seq<Slot>, n: nat)
    requires s != [] && s[0] == (if obj then '{' else '[') && a == 1 + Skip(s[1..])
             && Body(s[a..], obj, false) == Ok(slots, n)
    ensures ParseValue(s) ==
            if !obj then Ok(Array(Items(slots)), a + n)
            else if UniqueKeys(slots) then Ok(Object(Fields(slots)), a + n)
            else Fail
  {
    hide Body, Skip, Fields, Items, UniqueKeys, NumberLength, StringBody;
  }

  lemma BracketShape(s: string, obj: bool, a: nat)
    requires ParseValue(s).Ok? && s[0] == (if obj then '{' else '[') && a == 1 + Skip(s[1..])
    ensures Body(s[a..], obj, false).Ok? && ParseValue(s).used == a + Body(s[a..], obj, false).used
    ensures obj ==> UniqueKeys(Body(s[a..], obj, false).value)
    ensures ParseValue(s).value == if obj then Object(Fields(Body(s[a..], obj, false).value))
                                   else Array(Items(Body(s[a..], obj, false).value))
  {
    hide Body, Skip, Fields, Items, UniqueKeys, NumberLength, StringBody;
  }

  lemma {:induction false} BracketLocal(s: string, t: string, obj: bool)
    requires ParseValue(s).Ok? && s[0] == (if obj then '{' else '[') && Agree(s, t, ParseValue(s).used)
    ensures ParseValue(t) == ParseValue(s)
    decreases |s|, 0
  {
    hide Body, Skip, ParseValue, Fields, Items, UniqueKeys;
    var n := ParseValue(s).used;
    var a := 1 + Skip(s[1..]);
    BracketShape(s, obj, a);
    var m := Body(s[a..], obj, false).used;
    AgreeTail(s, t, 0, n);
    SkipAt(s, t, 1, n);
    AgreeTail(s, t, a, n);
    BodyLocal(s[a..], t[a..], obj, false);
    BracketIs(s, obj, a, Body(s[a..], obj, false).value, m);
    BracketIs(t, obj, a, Body(s[a..], obj, false).value, m);
  }

  lemma SlotParts(s: string, obj: bool, key: Str, b: nat, v: Value, n: nat)
    requires Head(s, obj) == Ok(key, b) && ParseValue(s[b..]) == Ok(v, n)
    ensures OneSlot(s, obj) == Ok(Slot(key, b, b + n, v), b + n + Skip(s[b + n..]))
  {
    hide Head, ParseValue, Skip;
  }

  lemma SlotShape(s: string, obj: bool, slot: Slot, c: nat)
    requires OneSlot(s, obj) == Ok(slot, c)
    ensures Head(s, obj) == Ok(slot.key, slot.start)
    ensures ParseValue(s[slot.start..]) == Ok(slot.value, slot.end - slot.start)
    ensures c == slot.end + Skip(s[slot.end..])
  {
    hide Head, ParseValue, Skip;
  }

  /** Between a value and the comma or bracket after it there is only white space. */
  lemma SlotFollows(s: string, obj: bool, slot: Slot, c: nat)
    requires OneSlot(s, obj) == Ok(slot, c) && c < |s| && Delimiter(s[c])
    ensures Delimiter(s[slot.end])
  {
    hide OneSlot, Head, ParseValue, Skip;
    SlotShape(s, obj, slot, c);
    SkipFacts(s[slot.end..]);
    if Skip(s[slot.end..]) > 0 { assert Ws(s[slot.end..][0]); }
  }

  lemma HeadAt(s: string, t: string, obj: bool, slot: Slot, c: nat)
    requires OneSlot(s, obj) == Ok(slot, c) && Agree(s, t, c)
    ensures Head(t, obj) == Head(s, obj)
  {
    hide OneSlot, Head, ParseValue, Skip;
    SlotShape(s, obj, slot, c);
    AgreeTail(s, t, 0, c);
    AgreeLess(s, t, c, slot.start);
    ValueStart(s[slot.start..]);
    assert t[slot.start] == s[slot.start..][0];
    HeadLocal(s, t, obj);
  }

  lemma {:induction false} ValueAt(s: string, t: string, b: nat, n: nat, c: nat)
    requires b <= |s| && ParseValue(s[b..]).Ok? && n == ParseValue(s[b..]).used
    requires b + n < c && Agree(s, t, c) && Delimiter(s[b + n])
    ensures ParseValue(t[b..]) == ParseValue(s[b..])
    decreases |s|, 2
  {
    hide ParseValue;
    AgreeTail(s, t, 0, c);
    AgreeTail(s, t, b, c);
    AgreeLess(s[b..], t[b..], c - b, n);
    assert t[b..][n] == s[b + n];
    ValueLocal(s[b..], t[b..]);
  }

  lemma {:induction false} OneSlotLocal(s: string, t: string, obj: bool, slot: Slot, c: nat)
    requires OneSlot(s, obj) == Ok(slot, c) && c < |s| && s[c] in {',', '}', ']'} && Agree(s, t, c + 1)
    ensures OneSlot(t, obj) == OneSlot(s, obj)
    decreases |s|, 3
  {
    hide OneSlot, Head, ParseValue, Skip;
    SlotShape(s, obj, slot, c);
    SlotFollows(s, obj, slot, c);
    AgreeLess(s, t, c + 1, c);
    HeadAt(s, t, obj, slot, c);
    ValueAt(s, t, slot.start, slot.end - slot.start, c + 1);
    SkipAt(s, t, slot.end, c + 1);
    SlotParts(t, obj, slot.key, slot.start, slot.value, slot.end - slot.start);
  }

  lemma {:induction false} SlotsLocal(s: string, t: string, obj: bool, lax: bool)
    requires Slots(s, obj, lax).Ok? && Agree(s, t, Slots(s, obj, lax).used)
    ensures Slots(t, obj, lax) == Slots(s, obj, lax)
    decreases |s|, 4
  {
    hide OneSlot, Slots, Skip, Prepend;
    var n := Slots(s, obj, lax).used;
    SlotsShape(s, obj, lax);
    var Ok(slot, c) := OneSlot(s, obj);
    if s[c] == Close(obj) {
      SlotsLast(s, obj, lax, slot, c);
      OneSlotLocal(s, t, obj, slot, c);
      AgreeTail(s, t, 0, n);
      SlotsLast(t, obj, lax, slot, c);
    } else {
      var d := c + 1 + Skip(s[c + 1..]);
      SlotsMore(s, obj, lax, slot, c, d);
      AgreeLess(s, t, n, c + 1);
      OneSlotLocal(s, t, obj, slot, c);
      AgreeTail(s, t, 0, n);
      SkipAt(s, t, c + 1, n);
      AgreeTail(s, t, d, n);
      MoreLocal(s[d..], t[d..], obj, lax);
      SlotsMore(t, obj, lax, slot, c, d);
    }
  }

  lemma {:induction false} BodyLocal(s: string, t: string, obj: bool, lax: bool)
    requires Body(s, obj, lax).Ok? && Agree(s, t, Body(s, obj, lax).used)
    ensures Body(t, obj, lax) == Body(s, obj, lax)
    decreases |s|, 5
  {
    hide Slots;
    AgreeTail(s, t, 0, Body(s, obj, lax).used);
    if s[0] != Close(obj) { SlotsLocal(s, t, obj, lax); }
  }

  lemma {:induction false} MoreLocal(s: string, t: string, obj: bool, lax: bool)
    requires More(s, obj, lax).Ok? && Agree(s, t, More(s, obj, lax).used)
    ensures More(t, obj, lax) == More(s, obj, lax)
    decreases |s|, 6
  {
    hide Slots, Body;
    if lax { BodyLocal(s, t, obj, lax); } else { SlotsLocal(s, t, obj, lax); }
  }
}
