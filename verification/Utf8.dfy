// UTF-8 as `read_text` and the writers use it: strict, so no overlong forms and no surrogates.
// A Dafny `char` is a Unicode scalar value.
module Utf8 {
  import opened Wrappers

  type Byte = b: int | 0 <= b < 256 witness 0

  function EncodeChar(c: char): (bytes: seq<Byte>)
    ensures 1 <= |bytes| <= 4
  {
    var n := c as int;
    if n < 0x80 then [n]
    else if n < 0x800 then [0xC0 + n / 64, 0x80 + n % 64]
    else if n < 0x10000 then [0xE0 + n / 64 / 64, 0x80 + n / 64 % 64, 0x80 + n % 64]
    else [0xF0 + n / 64 / 64 / 64, 0x80 + n / 64 / 64 % 64, 0x80 + n / 64 % 64, 0x80 + n % 64]
  }

  function Encode(text: string): seq<Byte> {
    if text == [] then [] else EncodeChar(text[0]) + Encode(text[1..])
  }

  predicate Tail(b: Byte) {
    0x80 <= b < 0xC0
  }

  // The bits of a byte above a base, put below those already read.
  function Shift(high: int, b: Byte): int {
    high * 64 + (b as int - 0x80)
  }

  lemma ShiftBack(high: int, b: Byte)
    requires Tail(b)
    ensures Shift(high, b) / 64 == high && Shift(high, b) % 64 + 0x80 == b
  {}

  // The scalar value at the front of the bytes and how many of them it takes.
  datatype Front = Front(scalar: char, length: nat)

  function Pair(bytes: seq<Byte>): Option<Front> {
    if 2 <= |bytes| && 0xC2 <= bytes[0] < 0xE0 && Tail(bytes[1])
    then Some(Front(Shift(bytes[0] as int - 0xC0, bytes[1]) as char, 2))
    else None
  }

  function Triple(bytes: seq<Byte>): Option<Front> {
    if 3 <= |bytes| && 0xE0 <= bytes[0] < 0xF0 && Tail(bytes[1]) && Tail(bytes[2])
      && (bytes[0] == 0xE0 ==> 0xA0 <= bytes[1]) && (bytes[0] == 0xED ==> bytes[1] < 0xA0)
    then Some(Front(Shift(Shift(bytes[0] as int - 0xE0, bytes[1]), bytes[2]) as char, 3))
    else None
  }

  function Quadruple(bytes: seq<Byte>): Option<Front> {
    if 4 <= |bytes| && 0xF0 <= bytes[0] < 0xF5 && Tail(bytes[1]) && Tail(bytes[2]) && Tail(bytes[3])
      && (bytes[0] == 0xF0 ==> 0x90 <= bytes[1]) && (bytes[0] == 0xF4 ==> bytes[1] < 0x90)
    then Some(Front(Shift(Shift(Shift(bytes[0] as int - 0xF0, bytes[1]), bytes[2]), bytes[3]) as char, 4))
    else None
  }

  function First(bytes: seq<Byte>): (front: Option<Front>)
    requires bytes != []
    ensures front.Some? ==> 1 <= front.value.length <= |bytes|
  {
    if bytes[0] < 0x80 then Some(Front(bytes[0] as char, 1))
    else if bytes[0] < 0xE0 then Pair(bytes)
    else if bytes[0] < 0xF0 then Triple(bytes)
    else Quadruple(bytes)
  }

  function Decode(bytes: seq<Byte>): Option<string> {
    if bytes == [] then Some("")
    else
      match First(bytes)
      case None => None
      case Some(front) =>
        match Decode(bytes[front.length..])
        case None => None
        case Some(rest) => Some([front.scalar] + rest)
  }

  lemma FirstOfChar(c: char, rest: seq<Byte>)
    ensures First(EncodeChar(c) + rest) == Some(Front(c, |EncodeChar(c)|))
  {}

  lemma CharOfFirst(bytes: seq<Byte>)
    requires bytes != [] && First(bytes).Some?
    ensures bytes[..First(bytes).value.length] == EncodeChar(First(bytes).value.scalar)
  {
    if 0x80 <= bytes[0] < 0xE0 {
      ShiftBack(bytes[0] as int - 0xC0, bytes[1]);
    } else if 0xE0 <= bytes[0] < 0xF0 {
      var two := Shift(bytes[0] as int - 0xE0, bytes[1]);
      ShiftBack(bytes[0] as int - 0xE0, bytes[1]);
      ShiftBack(two, bytes[2]);
    } else if 0xF0 <= bytes[0] {
      var two := Shift(bytes[0] as int - 0xF0, bytes[1]);
      ShiftBack(bytes[0] as int - 0xF0, bytes[1]);
      ShiftBack(two, bytes[2]);
      ShiftBack(Shift(two, bytes[2]), bytes[3]);
    }
  }

  lemma {:induction false} DecodeEncode(text: string)
    ensures Decode(Encode(text)) == Some(text)
  {
    if text != [] {
      var head := EncodeChar(text[0]);
      FirstOfChar(text[0], Encode(text[1..]));
      assert Encode(text)[|head|..] == Encode(text[1..]);
      DecodeEncode(text[1..]);
      assert [text[0]] + text[1..] == text;
    }
  }

  // `head` bytes for the first character, the rest of the bytes for the rest of the text.
  lemma DecodeSplit(bytes: seq<Byte>, text: string) returns (head: nat)
    requires bytes != [] && Decode(bytes) == Some(text)
    ensures 1 <= head <= |bytes| && text != [] && bytes[..head] == EncodeChar(text[0])
    ensures Decode(bytes[head..]) == Some(text[1..])
  {
    CharOfFirst(bytes);
    head := First(bytes).value.length;
    assert text == [First(bytes).value.scalar] + Decode(bytes[head..]).value;
  }

  lemma {:induction false} EncodeDecode(bytes: seq<Byte>, text: string)
    requires Decode(bytes) == Some(text)
    ensures Encode(text) == bytes
  {
    if bytes != [] {
      var head := DecodeSplit(bytes, text);
      EncodeDecode(bytes[head..], text[1..]);
      EncodeJoin(bytes, head, text);
    }
  }

  lemma EncodeJoin(bytes: seq<Byte>, head: nat, text: string)
    requires head <= |bytes| && text != [] && bytes[..head] == EncodeChar(text[0])
    requires Encode(text[1..]) == bytes[head..]
    ensures Encode(text) == bytes
  {
    assert bytes[..head] + bytes[head..] == bytes;
  }

  ghost predicate WellFormed(bytes: seq<Byte>) {
    exists text :: Encode(text) == bytes
  }

  // The decoder accepts exactly the encodings of strings.
  lemma DecodesIff(bytes: seq<Byte>)
    ensures Decode(bytes).Some? <==> WellFormed(bytes)
  {
    if Decode(bytes).Some? {
      EncodeDecode(bytes, Decode(bytes).value);
    }
    if WellFormed(bytes) {
      var text :| Encode(text) == bytes;
      DecodeEncode(text);
    }
  }
}
