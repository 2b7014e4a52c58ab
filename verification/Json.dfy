/** The JSON grammar as Python's strict decoder reads it (RFC 8259, sections 2 to 7), with duplicate keys and
    non-standard constants refused.

    Every parser takes the text that is still to be read and answers how much of it was used, so what a piece
    of text means does not depend on where it stands in a document. */
module Json {
  /** A decoded string is kept as UTF-16 code units: joining an escaped surrogate pair is then the identity. */
  type Unit = u: int | 0 <= u < 0x1_0000
  type Str = seq<Unit>

  /** Numbers keep their lexeme; equal lexemes denote equal Python numbers. */
  datatype Value =
    | Null
    | True
    | False
    | Number(lexeme: string)
    | Text(units: Str)
    | Array(items: seq<Value>)
    | Object(fields: map<Str, Value>)

  datatype Option<+T> = None | Some(value: T)

  datatype Parsed<+T> = Fail | Ok(value: T, used: nat)

  /** One member of an object or one element of an array (whose key is then empty): the value and the span of
      its text. */
  datatype Slot = Slot(key: Str, start: nat, end: nat, value: Value)

  // White space and punctuation

  predicate Ws(c: char) { c == ' ' || c == '\t' || c == '\r' || c == '\n' }

  function Skip(s: string): (n: nat)
    ensures n <= |s|
  {
    if s != [] && Ws(s[0]) then 1 + Skip(s[1..]) else 0
  }

  ghost predicate Delimiter(c: char) { Ws(c) || c == ',' || c == ']' || c == '}' }

  function Close(obj: bool): char { if obj then '}' else ']' }

  // Strings

  function Units(c: char): Str {
    var n := c as int;
    if n < 0x1_0000 then [n] else [0xD800 + (n - 0x1_0000) / 0x400, 0xDC00 + (n - 0x1_0000) % 0x400]
  }

  function UnitsOf(s: string): Str {
    if s == [] then [] else Units(s[0]) + UnitsOf(s[1..])
  }

  function HexDigit(c: char): (d: int)
    ensures -1 <= d < 16
  {
    if '0' <= c <= '9' then c as int - '0' as int
    else if 'a' <= c <= 'f' then c as int - 'a' as int + 10
    else if 'A' <= c <= 'F' then c as int - 'A' as int + 10
    else -1
  }

  /** What follows a backslash. */
  function Escape(s: string): (r: Parsed<Unit>)
    ensures r.Ok? ==> 0 < r.used <= |s|
  {
    if s == [] then Fail
    else if s[0] == '"' || s[0] == '\\' || s[0] == '/' then Ok(s[0] as int, 1)
    else if s[0] == 'b' then Ok(8, 1)
    else if s[0] == 'f' then Ok(12, 1)
    else if s[0] == 'n' then Ok(10, 1)
    else if s[0] == 'r' then Ok(13, 1)
    else if s[0] == 't' then Ok(9, 1)
    else if s[0] == 'u' && |s| >= 5 && forall i | 1 <= i < 5 :: HexDigit(s[i]) >= 0 then
      Ok(HexDigit(s[1]) * 4096 + HexDigit(s[2]) * 256 + HexDigit(s[3]) * 16 + HexDigit(s[4]), 5)
    else Fail
  }

  /** The text after an opening quote, up to and including the closing one. */
  function StringBody(s: string): (r: Parsed<Str>)
    ensures r.Ok? ==> 0 < r.used <= |s|
  {
    if s == [] then Fail
    else if s[0] == '"' then Ok([], 1)
    else if s[0] == '\\' then
      match Escape(s[1..])
      case Fail => Fail
      case Ok(unit, k) =>
        match StringBody(s[1 + k..])
        case Fail => Fail
        case Ok(units, n) => Ok([unit] + units, 1 + k + n)
    else if s[0] < ' ' then Fail
    else
      match StringBody(s[1..])
      case Fail => Fail
      case Ok(units, n) => Ok(Units(s[0]) + units, 1 + n)
  }

  // Numbers

  predicate Digit(c: char) { '0' <= c <= '9' }

  function DigitRun(s: string): (n: nat)
    ensures n <= |s|
  {
    if s != [] && Digit(s[0]) then 1 + DigitRun(s[1..]) else 0
  }

  function SignLength(s: string): (n: nat)
    ensures n <= |s|
  {
    if s != [] && s[0] == '-' then 1 else 0
  }

  function IntegerLength(s: string): (n: nat)
    ensures n <= |s|
  {
    if s != [] && s[0] == '0' then 1 else DigitRun(s)
  }

  function FractionLength(s: string): (n: nat)
    ensures n <= |s|
  {
    if |s| > 1 && s[0] == '.' && Digit(s[1]) then 1 + DigitRun(s[1..]) else 0
  }

  function ExponentLength(s: string): (n: nat)
    ensures n <= |s|
  {
    if s == [] || (s[0] != 'e' && s[0] != 'E') then 0
    else
      var sign := if |s| > 1 && (s[1] == '+' || s[1] == '-') then 1 else 0;
      var digits := DigitRun(s[1 + sign..]);
      if digits == 0 then 0 else 1 + sign + digits
  }

  /** The longest number at the start of the text, zero when there is none. */
  function NumberLength(s: string): (n: nat)
    ensures n <= |s|
  {
    var sign := SignLength(s);
    var whole := IntegerLength(s[sign..]);
    if whole == 0 then 0
    else
      var a := sign + whole;
      var b := a + FractionLength(s[a..]);
      b + ExponentLength(s[b..])
  }

  // Values

  function Shift(slots: seq<Slot>, d: nat): (r: seq<Slot>)
    ensures |r| == |slots|
  {
    if slots == [] then []
    else [Slot(slots[0].key, slots[0].start + d, slots[0].end + d, slots[0].value)] + Shift(slots[1..], d)
  }

  predicate UniqueKeys(slots: seq<Slot>) {
    forall i, j | 0 <= i < j < |slots| :: slots[i].key != slots[j].key
  }

  function Fields(slots: seq<Slot>): map<Str, Value> {
    if slots == [] then map[] else Fields(slots[1..])[slots[0].key := slots[0].value]
  }

  function Items(slots: seq<Slot>): (r: seq<Value>)
    ensures |r| == |slots|
  {
    if slots == [] then [] else [slots[0].value] + Items(slots[1..])
  }

  /** What stands before a value in an object: the key, the colon and the space around it. In an array, nothing. */
  function Head(s: string, obj: bool): (r: Parsed<Str>)
    ensures r.Ok? ==> r.used <= |s|
    ensures r.Ok? && obj ==> r.used > 0
    ensures r.Ok? && !obj ==> r == Ok([], 0)
  {
    if !obj then Ok([], 0)
    else if s == [] || s[0] != '"' then Fail
    else
      match StringBody(s[1..])
      case Fail => Fail
      case Ok(key, k) =>
        var a := 1 + k + Skip(s[1 + k..]);
        if a >= |s| || s[a] != ':' then Fail
        else Ok(key, a + 1 + Skip(s[a + 1..]))
  }

  /** A member or element with the space after it; `used` is where the comma or the closing bracket should be. */
  function OneSlot(s: string, obj: bool): (r: Parsed<Slot>)
    ensures r.Ok? ==> r.value.start < r.value.end <= r.used <= |s|
    decreases |s|, 1
  {
    match Head(s, obj)
    case Fail => Fail
    case Ok(key, b) =>
      match ParseValue(s[b..])
      case Fail => Fail
      case Ok(v, n) => Ok(Slot(key, b, b + n, v), b + n + Skip(s[b + n..]))
  }

  ghost predicate Ordered(slots: seq<Slot>, bound: nat) {
    && (forall i | 0 <= i < |slots| :: slots[i].start < slots[i].end < bound)
    && (forall i, j | 0 <= i < j < |slots| :: slots[i].end < slots[j].start)
  }

  /** Slots already read, and those found `d` characters further on. */
  function Prepend(slots: seq<Slot>, rest: Parsed<seq<Slot>>, d: nat): (r: Parsed<seq<Slot>>)
    ensures r.Ok? <==> rest.Ok?
    ensures r.Ok? ==> r.used == d + rest.used && |r.value| == |slots| + |rest.value|
  {
    match rest
    case Fail => Fail
    case Ok(more, n) => Ok(slots + Shift(more, d), d + n)
  }

  /** One or more slots and the closing bracket. The lax form allows a comma before the bracket. */
  function Slots(s: string, obj: bool, lax: bool): (r: Parsed<seq<Slot>>)
    ensures r.Ok? ==> 0 < r.used <= |s| && r.value != []
    decreases |s|, 2
  {
    match OneSlot(s, obj)
    case Fail => Fail
    case Ok(slot, c) =>
      if c >= |s| then Fail
      else if s[c] == Close(obj) then Ok([slot], c + 1)
      else if s[c] != ',' then Fail
      else
        var d := c + 1 + Skip(s[c + 1..]);
        Prepend([slot], More(s[d..], obj, lax), d)
  }

  /** What may follow a comma and the space after it. */
  function More(s: string, obj: bool, lax: bool): (r: Parsed<seq<Slot>>)
    ensures r.Ok? ==> 0 < r.used <= |s|
    decreases |s|, 4
  {
    if lax then Body(s, obj, lax) else Slots(s, obj, lax)
  }

  /** What follows an opening bracket and the space after it. */
  function Body(s: string, obj: bool, lax: bool): (r: Parsed<seq<Slot>>)
    ensures r.Ok? ==> 0 < r.used <= |s|
    decreases |s|, 3
  {
    if s != [] && s[0] == Close(obj) then Ok([], 1) else Slots(s, obj, lax)
  }

  function ParseValue(s: string): (r: Parsed<Value>)
    ensures r.Ok? ==> 0 < r.used <= |s|
    decreases |s|, 0
  {
    if s == [] then Fail
    else if s[0] == '"' then
      match StringBody(s[1..])
      case Fail => Fail
      case Ok(units, n) => Ok(Text(units), 1 + n)
    else if s[0] == '{' || s[0] == '[' then
      var obj := s[0] == '{';
      var a := 1 + Skip(s[1..]);
      match Body(s[a..], obj, false)
      case Fail => Fail
      case Ok(slots, n) =>
        if !obj then Ok(Array(Items(slots)), a + n)
        else if UniqueKeys(slots) then Ok(Object(Fields(slots)), a + n)
        else Fail
    else if "null" <= s then Ok(Null, 4)
    else if "true" <= s then Ok(True, 4)
    else if "false" <= s then Ok(False, 5)
    else
      var n := NumberLength(s);
      if n == 0 then Fail else Ok(Number(s[..n]), n)
  }

  /** A whole document: one value with space around it. */
  function Decode(s: string): Parsed<Value> {
    var a := Skip(s);
    match ParseValue(s[a..])
    case Fail => Fail
    case Ok(v, n) => if a + n + Skip(s[a + n..]) == |s| then Ok(v, |s|) else Fail
  }

  /** The text is exactly the text of one value. */
  ghost predicate Exact(s: string, v: Value) { ParseValue(s) == Ok(v, |s|) }
}
