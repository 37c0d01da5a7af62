// versioned_store.py VersionedFileStore: the versioned envelope, the load ladder, the write.
module VersionedStore {
  import opened Wrappers
  import opened Utf8

  datatype Json =
    | Null
    | Bool(flag: bool)
    | Int(whole: int)
    | Float(number: real)
    | Str(text: string)
    | Arr(elements: seq<Json>)
    | Obj(fields: map<string, Json>)

  // What is at the path.
  datatype Disk = NoFile | Denied | Holds(bytes: seq<Byte>)

  // What `json.loads` does with a text: JSONDecodeError; another ValueError, on an integer of
  // too many digits; RecursionError, on too deep a nesting; or the document.
  datatype Parse = NotJson | LongInteger | DeepNesting | Parses(doc: Json)

  // What reading the path comes to. `Undecodable` is bytes that are not UTF-8, `Garbled` text
  // that is not JSON, `Overlong` and `TooDeep` text on which the parser raises something else.
  datatype File = Missing | Unreadable | Undecodable | Garbled | Overlong | TooDeep | Document(doc: Json)

  // `load` hands back a payload or nothing, unless an exception leaves it.
  datatype Loaded<+P> = Payload(payload: P) | Nothing | Raised

  // `doc.get(key)` on a parsed object.
  function Get(fields: map<string, Json>, key: string): Json {
    if key in fields then fields[key] else Null
  }

  // isinstance(x, int): Python's booleans are integers too.
  predicate IsInt(j: Json) {
    j.Int? || j.Bool?
  }

  predicate IsNumber(j: Json) {
    IsInt(j) || j.Float?
  }

  // The value Python's arithmetic gives a number.
  function Value(j: Json): real
    requires IsNumber(j)
  {
    match j
    case Bool(b) => if b then 1.0 else 0.0
    case Int(i) => i as real
    case Float(r) => r
  }

  function Max(xs: seq<int>): (m: int)
    requires xs != []
    ensures m in xs && forall x :: x in xs ==> x <= m
  {
    if |xs| == 1 then xs[0]
    else
      var m := Max(xs[1..]);
      assert forall x :: x in xs ==> x == xs[0] || x in xs[1..];
      if xs[0] > m then xs[0] else m
  }

  predicate Supports(supported: seq<int>, version: Json)
    requires IsInt(version)
  {
    exists v :: v in supported && v as real == Value(version)
  }

  // The files on which an exception leaves `load`: it catches OSError and JSONDecodeError.
  predicate Escapes(file: File) {
    file.Undecodable? || file.Overlong? || file.TooDeep?
  }

  // `decode` gives None where the adapter's decoder raises.
  function Load<P>(file: File, supported: seq<int>, decode: Json -> Option<P>): Loaded<P> {
    match file
    case Missing => Nothing
    case Unreadable => Nothing
    case Undecodable => Raised
    case Garbled => Nothing
    case Overlong => Raised
    case TooDeep => Raised
    case Document(doc) =>
      if !doc.Obj? || !IsInt(Get(doc.fields, "version")) then Nothing
      else if !Supports(supported, Get(doc.fields, "version")) then Nothing
      else
        match decode(Get(doc.fields, "data"))
        case Some(payload) => Payload(payload)
        case None => Nothing
  }

  // `read_text`, then `json.loads`.
  function Read(disk: Disk, parse: string -> Parse): File {
    match disk
    case NoFile => Missing
    case Denied => Unreadable
    case Holds(bytes) =>
      match Decode(bytes)
      case None => Undecodable
      case Some(text) =>
        match parse(text)
        case NotJson => Garbled
        case LongInteger => Overlong
        case DeepNesting => TooDeep
        case Parses(doc) => Document(doc)
  }

  function LoadDisk<P>(disk: Disk, parse: string -> Parse, supported: seq<int>, decode: Json -> Option<P>): Loaded<P> {
    Load(Read(disk, parse), supported, decode)
  }

  function Envelope(supported: seq<int>, data: Json): Json
    requires supported != []
  {
    Obj(map["version" := Int(Max(supported)), "data" := data])
  }

  function Saved(supported: seq<int>, data: Json): File
    requires supported != []
  {
    Document(Envelope(supported, data))
  }

  // A saved payload is loaded back, whenever the adapter decodes what it encodes.
  lemma LoadSaved<P>(supported: seq<int>, data: Json, decode: Json -> Option<P>)
    requires supported != []
    ensures Load(Saved(supported, data), supported, decode) ==
      match decode(data) { case Some(payload) => Payload(payload) case None => Nothing }
  {
    assert Max(supported) in supported;
  }

  // The same down to the bytes, for a printer whose text the parser gives back.
  lemma LoadSavedBytes<P>(parse: string -> Parse, show: Json -> string, supported: seq<int>,
      data: Json, decode: Json -> Option<P>)
    requires supported != []
    requires parse(show(Envelope(supported, data))) == Parses(Envelope(supported, data))
    ensures LoadDisk(Holds(Encode(show(Envelope(supported, data)))), parse, supported, decode) ==
      match decode(data) { case Some(payload) => Payload(payload) case None => Nothing }
  {
    DecodeEncode(show(Envelope(supported, data)));
    LoadSaved(supported, data, decode);
  }

  // A text on which the parser raises something else than JSONDecodeError.
  ghost predicate ParserEscapes(parse: string -> Parse, text: string) {
    parse(text).LongInteger? || parse(text).DeepNesting?
  }

  ghost predicate HoldsText(disk: Disk, text: string) {
    disk.Holds? && Encode(text) == disk.bytes
  }

  // Whatever the adapter: load raises exactly on a file that is the encoding of no text, or of
  // a text on which the parser raises.
  lemma LoadRaisesIff<P>(disk: Disk, parse: string -> Parse, supported: seq<int>, decode: Json -> Option<P>)
    ensures LoadDisk(disk, parse, supported, decode).Raised? <==>
      && disk.Holds?
      && (!WellFormed(disk.bytes) || exists text :: HoldsText(disk, text) && ParserEscapes(parse, text))
  {
    if disk.Holds? {
      DecodesIff(disk.bytes);
      if Decode(disk.bytes).Some? {
        EncodeDecode(disk.bytes, Decode(disk.bytes).value);
        assert HoldsText(disk, Decode(disk.bytes).value);
      }
      if text :| HoldsText(disk, text) && ParserEscapes(parse, text) {
        DecodeEncode(text);
      }
    }
  }

  // A byte no text has, an overlong form, a surrogate and a cut character.
  lemma LoadRaises<P>(parse: string -> Parse, supported: seq<int>, decode: Json -> Option<P>)
    ensures LoadDisk(Holds([0xFF]), parse, supported, decode) == Raised
    ensures LoadDisk(Holds([0xC0, 0x80]), parse, supported, decode) == Raised
    ensures LoadDisk(Holds([0xED, 0xA0, 0x80]), parse, supported, decode) == Raised
    ensures LoadDisk(Holds([0xD0]), parse, supported, decode) == Raised
  {}

  const MAX_DIGITS := 4300

  // Python 3.11 turns no text of more than 4300 digits into an integer.
  ghost predicate LimitsDigits(parse: string -> Parse) {
    forall text :: LongNumeral(text) ==> parse(text).LongInteger?
  }

  ghost predicate LongNumeral(text: string) {
    |text| > MAX_DIGITS && text[0] != '0' && forall i :: 0 <= i < |text| ==> '0' <= text[i] <= '9'
  }

  // So a file that holds nothing but so many ones raises, though it is UTF-8 and JSON.
  lemma LongNumeralRaises<P>(n: nat, parse: string -> Parse, supported: seq<int>, decode: Json -> Option<P>)
    requires LimitsDigits(parse) && n > MAX_DIGITS
    ensures LoadDisk(Holds(seq(n, _ => 0x31)), parse, supported, decode) == Raised
  {
    var text := seq(n, _ => '1');
    Ones(n);
    assert LongNumeral(text);
    DecodeEncode(text);
  }

  lemma {:induction false} Ones(n: nat)
    ensures Encode(seq(n, _ => '1')) == seq(n, _ => 0x31)
  {
    if n > 0 {
      Ones(n - 1);
      assert seq(n, _ => '1')[1..] == seq(n - 1, _ => '1');
      assert EncodeChar('1') == [0x31];
    }
  }

  // The file holds this text, whose document has a supported version; True is version 1.
  ghost predicate HoldsEnvelope(disk: Disk, parse: string -> Parse, supported: seq<int>, text: string) {
    && HoldsText(disk, text) && parse(text).Parses? && parse(text).doc.Obj?
    && var version := Get(parse(text).doc.fields, "version");
       || (version.Int? && version.whole in supported)
       || (version.Bool? && (if version.flag then 1 else 0) in supported)
  }

  ghost predicate HoldsPayload<P>(disk: Disk, parse: string -> Parse, supported: seq<int>, decode: Json -> Option<P>,
      text: string, payload: P) {
    HoldsEnvelope(disk, parse, supported, text) && decode(Get(parse(text).doc.fields, "data")) == Some(payload)
  }

  // A payload comes only from a well-formed file with a supported version, through the decoder.
  lemma LoadGivesIff<P>(disk: Disk, parse: string -> Parse, supported: seq<int>, decode: Json -> Option<P>, payload: P)
    ensures LoadDisk(disk, parse, supported, decode) == Payload(payload) <==>
      exists text :: HoldsPayload(disk, parse, supported, decode, text, payload)
  {
    if LoadDisk(disk, parse, supported, decode) == Payload(payload) {
      var text := PayloadText(disk, parse, supported, decode, payload);
    }
    if text :| HoldsPayload(disk, parse, supported, decode, text, payload) {
      DecodeEncode(text);
    }
  }

  lemma PayloadText<P>(disk: Disk, parse: string -> Parse, supported: seq<int>, decode: Json -> Option<P>, payload: P)
    returns (text: string)
    requires LoadDisk(disk, parse, supported, decode) == Payload(payload)
    ensures HoldsPayload(disk, parse, supported, decode, text, payload)
  {
    text := Decode(disk.bytes).value;
    EncodeDecode(disk.bytes, text);
  }
}
