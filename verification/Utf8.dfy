/** UTF-8 (RFC 3629, section 3): the encoder, the strict decoder, and why a byte offset is the length of an
    encoded prefix. */
module Utf8 {
  import opened Json

  type Byte = b: int | 0 <= b < 256

  function CharBytes(c: char): (r: seq<Byte>)
    ensures 1 <= |r| <= 4
  {
    var n := c as int;
    if n < 0x80 then [n]
    else if n < 0x800 then [0xC0 + n / 0x40, 0x80 + n % 0x40]
    else if n < 0x1_0000 then [0xE0 + n / 0x1000, 0x80 + n / 0x40 % 0x40, 0x80 + n % 0x40]
    else [0xF0 + n / 0x4_0000, 0x80 + n / 0x1000 % 0x40, 0x80 + n / 0x40 % 0x40, 0x80 + n % 0x40]
  }

  function Encode(s: string): (r: seq<Byte>)
    ensures |r| >= |s|
  {
    if s == "" then [] else CharBytes(s[0]) + Encode(s[1..])
  }

  predicate Tail(b: Byte) { 0x80 <= b < 0xC0 }

  /** Six more bits from a continuation byte. */
  function Six(high: int, b: int): int { high * 0x40 + (b - 0x80) }

  /** The first character of a byte string. Overlong forms, surrogates and values past U+10FFFF are refused. */
  function DecodeOne(b: seq<Byte>): (r: Parsed<char>)
    ensures r.Ok? ==> 0 < r.used <= |b|
  {
    if b == [] then Fail
    else if b[0] < 0x80 then Ok(b[0] as char, 1)
    else if b[0] < 0xC0 then Fail
    else if b[0] < 0xE0 then
      if |b| < 2 || !Tail(b[1]) then Fail else Checked(Six(b[0] - 0xC0, b[1]), 0x80, 2)
    else if b[0] < 0xF0 then
      if |b| < 3 || !Tail(b[1]) || !Tail(b[2]) then Fail
      else Checked(Six(Six(b[0] - 0xE0, b[1]), b[2]), 0x800, 3)
    else if b[0] < 0xF8 then
      if |b| < 4 || !Tail(b[1]) || !Tail(b[2]) || !Tail(b[3]) then Fail
      else Checked(Six(Six(Six(b[0] - 0xF0, b[1]), b[2]), b[3]), 0x1_0000, 4)
    else Fail
  }

  function Checked(n: int, least: int, used: nat): (r: Parsed<char>)
    requires n >= 0
  {
    if least <= n && (n < 0xD800 || 0xE000 <= n < 0x11_0000) then Ok(n as char, used) else Fail
  }

  function Decode(b: seq<Byte>): Option<string> {
    if b == [] then Some("")
    else
      match DecodeOne(b)
      case Fail => None
      case Ok(c, n) =>
        match Decode(b[n..])
        case None => None
        case Some(s) => Some([c] + s)
  }

  lemma SixParts(n: int)
    ensures Six(n / 0x40, 0x80 + n % 0x40) == n
  {
  }

  lemma SixSplits(high: int, b: Byte)
    requires Tail(b)
    ensures Six(high, b) / 0x40 == high && Six(high, b) % 0x40 == b - 0x80
  {
  }

  lemma DecodesChar(c: char, rest: seq<Byte>)
    ensures DecodeOne(CharBytes(c) + rest) == Ok(c, |CharBytes(c)|)
  {
    hide Six;
    var b := CharBytes(c) + rest;
    var n := c as int;
    assert forall i | 0 <= i < |CharBytes(c)| :: b[i] == CharBytes(c)[i];
    SixParts(n);
    SixParts(n / 0x40);
    SixParts(n / 0x1000);
    assert n / 0x40 / 0x40 == n / 0x1000 && n / 0x1000 / 0x40 == n / 0x4_0000;
  }

  lemma EncodesChar(b: seq<Byte>)
    requires DecodeOne(b).Ok?
    ensures b[..DecodeOne(b).used] == CharBytes(DecodeOne(b).value)
  {
    if b[0] >= 0x80 {
      var x := Six(b[0] - (if b[0] < 0xE0 then 0xC0 else if b[0] < 0xF0 then 0xE0 else 0xF0), b[1]);
      SixSplits(b[0] - (if b[0] < 0xE0 then 0xC0 else if b[0] < 0xF0 then 0xE0 else 0xF0), b[1]);
      if b[0] >= 0xE0 {
        SixSplits(x, b[2]);
        if b[0] >= 0xF0 {
          SixSplits(Six(x, b[2]), b[3]);
          FourBytes(b, Six(Six(x, b[2]), b[3]));
        } else {
          ThreeBytes(b, Six(x, b[2]));
        }
      }
    }
  }

  lemma ThreeBytes(b: seq<Byte>, n: int)
    requires |b| >= 3 && 0xE0 <= b[0] < 0xF0 && Tail(b[1]) && Tail(b[2])
    requires n == Six(Six(b[0] - 0xE0, b[1]), b[2]) && 0x800 <= n && (n < 0xD800 || 0xE000 <= n < 0x11_0000)
    ensures b[..3] == CharBytes(n as char)
  {
    hide Six;
    var x := Six(b[0] - 0xE0, b[1]);
    SixSplits(b[0] - 0xE0, b[1]);
    SixSplits(x, b[2]);
    assert n / 0x40 == x && n / 0x1000 == x / 0x40;
  }

  lemma FourBytes(b: seq<Byte>, n: int)
    requires |b| >= 4 && 0xF0 <= b[0] < 0xF8 && Tail(b[1]) && Tail(b[2]) && Tail(b[3])
    requires n == Six(Six(Six(b[0] - 0xF0, b[1]), b[2]), b[3]) && 0x1_0000 <= n < 0x11_0000
    ensures b[..4] == CharBytes(n as char)
  {
    hide Six;
    var x := Six(b[0] - 0xF0, b[1]);
    var y := Six(x, b[2]);
    SixSplits(b[0] - 0xF0, b[1]);
    SixSplits(x, b[2]);
    SixSplits(y, b[3]);
    assert n / 0x40 == y && n / 0x1000 == y / 0x40 == x && n / 0x4_0000 == x / 0x40;
  }

  /** Decoding undoes encoding. */
  lemma {:induction false} DecodeEncode(s: string)
    ensures Decode(Encode(s)) == Some(s)
  {
    if s != "" {
      hide CharBytes, DecodeOne;
      DecodesChar(s[0], Encode(s[1..]));
      var b := Encode(s);
      assert b == CharBytes(s[0]) + Encode(s[1..]);
      assert b[|CharBytes(s[0])|..] == Encode(s[1..]);
      DecodeEncode(s[1..]);
      assert [s[0]] + s[1..] == s;
    }
  }

  /** Bytes the decoder accepts are the encoding of what it returns. */
  lemma {:induction false} EncodeDecode(b: seq<Byte>)
    requires Decode(b).Some?
    ensures Encode(Decode(b).value) == b
  {
    if b != [] {
      hide CharBytes, DecodeOne, Encode, Decode;
      var first := DecodeCons(b);
      var Ok(c, n) := first;
      EncodesChar(b);
      EncodeDecode(b[n..]);
      EncodeCons(c, Decode(b[n..]).value);
      Rejoined(b, n);
    } else {
      assert Encode("") == [];
    }
  }

  lemma DecodeCons(b: seq<Byte>) returns (first: Parsed<char>)
    requires b != [] && Decode(b).Some?
    ensures first == DecodeOne(b) && first.Ok? && first.used <= |b|
    ensures Decode(b[first.used..]).Some? && Decode(b).value == [first.value] + Decode(b[first.used..]).value
  {
    hide DecodeOne;
    first := DecodeOne(b);
  }

  lemma Rejoined(b: seq<Byte>, n: nat)
    requires n <= |b|
    ensures b[..n] + b[n..] == b
  {
  }

  lemma EncodeCons(c: char, s: string)
    ensures Encode([c] + s) == CharBytes(c) + Encode(s)
  {
    hide CharBytes;
    assert ([c] + s)[1..] == s;
  }

  /** Encoding is a homomorphism, so a position in the text becomes the encoded length of what precedes it. */
  lemma {:induction false} EncodeConcat(s: string, t: string)
    ensures Encode(s + t) == Encode(s) + Encode(t)
  {
    if s == "" {
      assert s + t == t;
    } else {
      hide CharBytes;
      assert (s + t)[1..] == s[1..] + t;
      EncodeConcat(s[1..], t);
    }
  }

  /** The byte offset of a character position. */
  function Offset(text: string, at: nat): nat
    requires at <= |text|
  {
    |Encode(text[..at])|
  }

  lemma OffsetGrows(text: string, a: nat, b: nat)
    requires a < b <= |text|
    ensures Offset(text, a) < Offset(text, b)
  {
    assert text[..b] == text[..a] + text[a..b];
    EncodeConcat(text[..a], text[a..b]);
  }

  /** A replacement of bytes at an offset, as the reports record it. */
  datatype ByteEdit = ByteEdit(offset: nat, old_utf8: seq<Byte>, new_utf8: seq<Byte>)

  /** Checks the old bytes and puts the new ones in their place. */
  function Replay(raw: seq<Byte>, e: ByteEdit): Option<seq<Byte>> {
    if e.offset + |e.old_utf8| <= |raw| && raw[e.offset..e.offset + |e.old_utf8|] == e.old_utf8
    then Some(raw[..e.offset] + e.new_utf8 + raw[e.offset + |e.old_utf8|..])
    else None
  }

  /** A splice of the text is a splice of its bytes at the encoded position. */
  lemma ReplaySplice(text: string, a: nat, b: nat, lit: string)
    requires a <= b <= |text|
    ensures Replay(Encode(text), ByteEdit(Offset(text, a), Encode(text[a..b]), Encode(lit)))
         == Some(Encode(text[..a] + lit + text[b..]))
  {
    hide Encode;
    var x, y, z := text[..a], text[a..b], text[b..];
    assert text == x + y + z;
    EncodeConcat(x + y, z);
    EncodeConcat(x, y);
    EncodeConcat(x + lit, z);
    EncodeConcat(x, lit);
    var raw := Encode(text);
    assert raw == Encode(x) + Encode(y) + Encode(z);
    assert raw[|Encode(x)|..|Encode(x)| + |Encode(y)|] == Encode(y);
    assert raw[..|Encode(x)|] == Encode(x);
    assert raw[|Encode(x)| + |Encode(y)|..] == Encode(z);
  }
}
