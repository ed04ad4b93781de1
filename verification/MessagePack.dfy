/** The PilotCore subset of MessagePack (the "Formats" section of its specification): values to bytes and back. */
module MessagePack {
  import opened Bytes

  /** Strings stay byte sequences, floating point numbers stay their big-endian image, and the entries of a
      map stay in the order they were read. */
  datatype Value =
    | Nil
    | Bool(on: bool)
    | Int(i: int)
    | Float(image: seq<byte>)
    | Str(text: seq<byte>)
    | Arr(items: seq<Value>)
    | Map(keys: seq<Value>, values: seq<Value>)

  datatype Result<T> = Ok(value: T) | Throws {
    predicate IsFailure() { Throws? }
    function PropagateFailure<U>(): (r: Result<U>) requires Throws? { Throws }
    function Extract(): T requires Ok? { value }
  }

  // ---------------------------------------------------------------------------
  // Encoding
  // ---------------------------------------------------------------------------

  function EncodeInt(i: int): (r: Result<seq<byte>>)
  {
    if i < 0 || i > 0xffff_ffff then Throws
    else if i < 0x80 then Ok([i])
    else if i <= 0xff then Ok([0xcc, i])
    else if i <= 0xffff then Ok([0xcd] + BE16(i))
    else Ok([0xce] + BE32(i))
  }

  function EncodeStr(text: seq<byte>): (r: Result<seq<byte>>)
  {
    if |text| < 32 then Ok([0xa0 + |text|] + text)
    else if |text| <= 0xff then Ok([0xd9, |text|] + text)
    else if |text| <= 0xffff then Ok([0xda] + BE16(|text|) + text)
    else Throws
  }

  function Encode(v: Value): (r: Result<seq<byte>>)
    decreases v, 1
  {
    match v
    case Nil => Ok([0xc0])
    case Bool(on) => Ok([if on then 0xc3 else 0xc2])
    case Int(i) => EncodeInt(i)
    case Str(text) => EncodeStr(text)
    case Arr(items) =>
      if |items| >= 16 then Throws else
        var body :- EncodeAll(items);
        Ok([0x90 + |items|] + body)
    case Float(_) => Throws
    case Map(_, _) => Throws
  }

  function EncodeAll(items: seq<Value>): (r: Result<seq<byte>>)
    decreases items, 0
  {
    if items == [] then Ok([]) else
      var first :- Encode(items[0]);
      var rest :- EncodeAll(items[1..]);
      Ok(first + rest)
  }

  // ---------------------------------------------------------------------------
  // Decoding
  // ---------------------------------------------------------------------------

  datatype Read<T> = Read(value: T, at: nat)

  function Signed(n: nat, range: nat): (i: int) { if 2 * n >= range then n - range else n }

  /** One value at an offset. Every read stays inside the buffer and moves forward. */
  function Decode(b: seq<byte>, at: nat): (r: Result<Read<Value>>)
    requires at <= |b|
    ensures r.Ok? ==> at < r.value.at <= |b|
    decreases |b| - at, 0, 0
  {
    if at + 1 > |b| then Throws else
      var m := b[at];
      var o := at + 1;
      if m <= 0x7f then Ok(Read(Int(m), o))
      else if m >= 0xe0 then Ok(Read(Int(m as int - 0x100), o))
      else if m / 0x20 == 5 then DecodeStr(b, o, m % 0x20)
      else if m / 0x10 == 9 then DecodeArr(b, o, m % 0x10)
      else if m / 0x10 == 8 then DecodeMap(b, o, m % 0x10)
      else if m == 0xc0 then Ok(Read(Nil, o))
      else if m == 0xc2 then Ok(Read(Bool(false), o))
      else if m == 0xc3 then Ok(Read(Bool(true), o))
      else if m == 0xca then if o + 4 > |b| then Throws else Ok(Read(Float(b[o..o + 4]), o + 4))
      else if m == 0xcb then if o + 8 > |b| then Throws else Ok(Read(Float(b[o..o + 8]), o + 8))
      else if m == 0xcc then if o + 1 > |b| then Throws else Ok(Read(Int(b[o]), o + 1))
      else if m == 0xcd then if o + 2 > |b| then Throws else Ok(Read(Int(U16BE(b, o)), o + 2))
      else if m == 0xce then if o + 4 > |b| then Throws else Ok(Read(Int(U32BE(b, o)), o + 4))
      else if m == 0xd0 then if o + 1 > |b| then Throws else Ok(Read(Int(Signed(b[o], 0x100)), o + 1))
      else if m == 0xd1 then if o + 2 > |b| then Throws else Ok(Read(Int(Signed(U16BE(b, o), 0x1_0000)), o + 2))
      else if m == 0xd2 then if o + 4 > |b| then Throws else Ok(Read(Int(Signed(U32BE(b, o), 0x1_0000_0000)), o + 4))
      else if m == 0xd9 then if o + 1 > |b| then Throws else DecodeStr(b, o + 1, b[o])
      else if m == 0xda then if o + 2 > |b| then Throws else DecodeStr(b, o + 2, U16BE(b, o))
      else if m == 0xdc then if o + 2 > |b| then Throws else DecodeArr(b, o + 2, U16BE(b, o))
      else if m == 0xde then if o + 2 > |b| then Throws else DecodeMap(b, o + 2, U16BE(b, o))
      else Throws
  }

  function DecodeStr(b: seq<byte>, at: nat, length: nat): (r: Result<Read<Value>>)
    requires at <= |b|
    ensures r.Ok? ==> at <= r.value.at <= |b|
  {
    if at + length > |b| then Throws else Ok(Read(Str(b[at..at + length]), at + length))
  }

  function DecodeArr(b: seq<byte>, at: nat, length: nat): (r: Result<Read<Value>>)
    requires at <= |b|
    ensures r.Ok? ==> at <= r.value.at <= |b|
    decreases |b| - at, 2, length
  {
    if length > 256 then Throws else
      var items :- DecodeItems(b, at, length);
      Ok(Read(Arr(items.value), items.at))
  }

  function DecodeItems(b: seq<byte>, at: nat, length: nat): (r: Result<Read<seq<Value>>>)
    requires at <= |b|
    ensures r.Ok? ==> at <= r.value.at <= |b| && |r.value.value| == length
    decreases |b| - at, 1, length
  {
    if length == 0 then Ok(Read([], at)) else
      var first :- Decode(b, at);
      var rest :- DecodeItems(b, first.at, length - 1);
      Ok(Read([first.value] + rest.value, rest.at))
  }

  function DecodeMap(b: seq<byte>, at: nat, length: nat): (r: Result<Read<Value>>)
    requires at <= |b|
    ensures r.Ok? ==> at <= r.value.at <= |b|
    decreases |b| - at, 2, length
  {
    if length > 256 then Throws else
      var items :- DecodeItems(b, at, 2 * length);
      Ok(Read(Map(Evens(items.value), Odds(items.value)), items.at))
  }

  function Evens<T>(s: seq<T>): (r: seq<T>) { seq((|s| + 1) / 2, i requires 0 <= i < (|s| + 1) / 2 => s[2 * i]) }
  function Odds<T>(s: seq<T>): (r: seq<T>) { seq(|s| / 2, i requires 0 <= i < |s| / 2 => s[2 * i + 1]) }

  /** decodeMessagePack: one value that fills the whole buffer. */
  function DecodeWhole(b: seq<byte>): (r: Result<Value>)
  {
    var v :- Decode(b, 0);
    if v.at != |b| then Throws else Ok(v.value)
  }

  // ---------------------------------------------------------------------------
  // Round trip
  // ---------------------------------------------------------------------------

  /** The values that PilotCore messages may contain. */
  predicate Supported(v: Value)
  {
    match v
    case Nil => true
    case Bool(_) => true
    case Int(i) => 0 <= i <= 0xffff_ffff
    case Str(text) => |text| <= 0xffff
    case Arr(items) => |items| <= 15 && forall i :: 0 <= i < |items| ==> Supported(items[i])
    case Float(_) => false
    case Map(_, _) => false
  }

  lemma {:induction false} EncodeAccepts(v: Value)
    ensures Encode(v).Ok? <==> Supported(v)
    decreases v, 1
  {
    if v.Arr? { EncodeAllAccepts(v.items); }
  }

  lemma {:induction false} EncodeAllAccepts(items: seq<Value>)
    ensures EncodeAll(items).Ok? <==> forall i :: 0 <= i < |items| ==> Supported(items[i])
    decreases items, 0
  {
    if items != [] {
      EncodeAccepts(items[0]);
      EncodeAllAccepts(items[1..]);
      assert items == [items[0]] + items[1..];
    }
  }

  ghost predicate Holds(b: seq<byte>, at: nat, part: seq<byte>)
  {
    at + |part| <= |b| && b[at..at + |part|] == part
  }

  lemma HoldsParts(b: seq<byte>, at: nat, x: seq<byte>, y: seq<byte>)
    requires Holds(b, at, x + y)
    ensures Holds(b, at, x) && Holds(b, at + |x|, y)
    ensures forall k :: 0 <= k < |x| ==> b[at + k] == x[k]
  {
    var all := b[at..at + |x + y|];
    assert all[..|x|] == x && all[|x|..] == y;
    assert b[at..at + |x|] == all[..|x|];
    assert b[at + |x|..at + |x| + |y|] == all[|x|..];
    forall k | 0 <= k < |x| ensures b[at + k] == x[k] { assert b[at + k] == all[k]; }
  }

  lemma HoldsBytes(b: seq<byte>, at: nat, x: seq<byte>)
    requires Holds(b, at, x)
    ensures forall k :: 0 <= k < |x| ==> b[at + k] == x[k]
  {
    assert x + [] == x;
    HoldsParts(b, at, x, []);
  }

  lemma IntRoundTrip(i: int, b: seq<byte>, at: nat)
    requires EncodeInt(i).Ok? && Holds(b, at, EncodeInt(i).value)
    ensures Decode(b, at) == Ok(Read(Int(i), at + |EncodeInt(i).value|))
  {
    hide DecodeStr, DecodeArr, DecodeMap;
    var e := EncodeInt(i).value;
    HoldsBytes(b, at, e);
    assert b[at] == e[0];
  }

  lemma StrRoundTrip(text: seq<byte>, b: seq<byte>, at: nat)
    requires EncodeStr(text).Ok? && Holds(b, at, EncodeStr(text).value)
    ensures Decode(b, at) == Ok(Read(Str(text), at + |EncodeStr(text).value|))
  {
    hide DecodeArr, DecodeMap;
    var e := EncodeStr(text).value;
    var h := |e| - |text|;
    assert e == e[..h] + text;
    HoldsParts(b, at, e[..h], text);
    assert b[at] == e[0];
  }

  /** Decoding undoes encoding, at any offset and whatever follows, and stops right after the encoding. */
  lemma {:induction false} RoundTrip(v: Value, b: seq<byte>, at: nat)
    requires Encode(v).Ok? && Holds(b, at, Encode(v).value)
    ensures Decode(b, at) == Ok(Read(v, at + |Encode(v).value|))
    decreases v, 1
  {
    hide Decode, EncodeInt, EncodeStr, DecodeItems, Holds;
    match v
    case Nil => OneByteRoundTrip(v, b, at);
    case Bool(_) => OneByteRoundTrip(v, b, at);
    case Int(i) => IntRoundTrip(i, b, at);
    case Str(text) => StrRoundTrip(text, b, at);
    case Arr(items) =>
      var body := EncodeAll(items).value;
      HoldsParts(b, at, [0x90 + |items|], body);
      RoundTripAll(items, b, at + 1);
      DecodeArrMarker(b, at, |items|);
  }

  lemma OneByteRoundTrip(v: Value, b: seq<byte>, at: nat)
    requires (v.Nil? || v.Bool?) && Holds(b, at, Encode(v).value)
    ensures Decode(b, at) == Ok(Read(v, at + |Encode(v).value|))
  {
    hide Decode;
    HoldsBytes(b, at, Encode(v).value);
    assert b[at] == Encode(v).value[0];
    PlainValues(b, at);
  }

  lemma DecodeArrMarker(b: seq<byte>, at: nat, n: nat)
    requires n < 16 && at < |b| && b[at] == 0x90 + n
    ensures DecodeItems(b, at + 1, n).Ok? ==>
      Decode(b, at) == Ok(Read(Arr(DecodeItems(b, at + 1, n).value.value), DecodeItems(b, at + 1, n).value.at))
  {
    hide DecodeStr, DecodeMap, DecodeItems;
  }

  lemma {:induction false} RoundTripAll(items: seq<Value>, b: seq<byte>, at: nat)
    requires EncodeAll(items).Ok? && Holds(b, at, EncodeAll(items).value)
    ensures DecodeItems(b, at, |items|) == Ok(Read(items, at + |EncodeAll(items).value|))
    decreases items, 0
  {
    hide Decode;
    if items != [] {
      var first, rest := Encode(items[0]).value, EncodeAll(items[1..]).value;
      HoldsParts(b, at, first, rest);
      RoundTrip(items[0], b, at);
      RoundTripAll(items[1..], b, at + |first|);
      assert items == [items[0]] + items[1..];
    }
  }

  lemma WholeRoundTrip(v: Value)
    requires Supported(v)
    ensures Encode(v).Ok? && DecodeWhole(Encode(v).value) == Ok(v)
  {
    EncodeAccepts(v);
    var e := Encode(v).value;
    assert e[0..|e|] == e;
    RoundTrip(v, e, 0);
  }

  // ---------------------------------------------------------------------------
  // What the formats mean, byte by byte
  // ---------------------------------------------------------------------------

  /** Two and four bytes as a number, most significant byte first. */
  function Two(b: seq<byte>, i: nat): int
    requires i + 2 <= |b|
  {
    256 * b[i] as int + b[i + 1] as int
  }

  function Four(b: seq<byte>, i: nat): int
    requires i + 4 <= |b|
  {
    65536 * Two(b, i) + Two(b, i + 2)
  }

  /** n is i modulo the range, and i the one of the two halves around 0. */
  predicate TwosComplement(i: int, n: int, range: int)
  {
    -range <= 2 * i < range && n == if i < 0 then i + range else i
  }

  /** Signed numbers: the marker and the two's complement of the number, most significant byte first; small negative
      numbers are their own marker. */
  lemma SignedNumbers(b: seq<byte>, at: nat, i: int)
    requires at < |b|
    ensures b[at] == 0xd0 && at + 2 <= |b| && TwosComplement(i, b[at + 1], 0x100) ==>
      Decode(b, at) == Ok(Read(Int(i), at + 2))
    ensures b[at] == 0xd1 && at + 3 <= |b| && TwosComplement(i, Two(b, at + 1), 0x1_0000) ==>
      Decode(b, at) == Ok(Read(Int(i), at + 3))
    ensures b[at] == 0xd2 && at + 5 <= |b| && TwosComplement(i, Four(b, at + 1), 0x1_0000_0000) ==>
      Decode(b, at) == Ok(Read(Int(i), at + 5))
    ensures -32 <= i < 0 && b[at] == i + 0x100 ==> Decode(b, at) == Ok(Read(Int(i), at + 1))
  {
    hide DecodeStr, DecodeArr, DecodeMap;
  }

  /** Numbers without a sign, nil, and the two truth values. */
  lemma PlainValues(b: seq<byte>, at: nat)
    requires at < |b|
    ensures b[at] < 0x80 ==> Decode(b, at) == Ok(Read(Int(b[at]), at + 1))
    ensures b[at] == 0xcc && at + 2 <= |b| ==> Decode(b, at) == Ok(Read(Int(b[at + 1]), at + 2))
    ensures b[at] == 0xcd && at + 3 <= |b| ==>
      Decode(b, at) == Ok(Read(Int(Two(b, at + 1)), at + 3))
    ensures b[at] == 0xce && at + 5 <= |b| ==> Decode(b, at) == Ok(Read(Int(Four(b, at + 1)), at + 5))
    ensures b[at] == 0xc0 ==> Decode(b, at) == Ok(Read(Nil, at + 1))
    ensures b[at] == 0xc2 ==> Decode(b, at) == Ok(Read(Bool(false), at + 1))
    ensures b[at] == 0xc3 ==> Decode(b, at) == Ok(Read(Bool(true), at + 1))
  {
    hide DecodeStr, DecodeArr, DecodeMap;
  }

  /** Floating point images of four and eight bytes. */
  lemma FloatValues(b: seq<byte>, at: nat)
    requires at < |b|
    ensures b[at] == 0xca && at + 5 <= |b| ==> Decode(b, at) == Ok(Read(Float(b[at + 1..at + 5]), at + 5))
    ensures b[at] == 0xcb && at + 9 <= |b| ==> Decode(b, at) == Ok(Read(Float(b[at + 1..at + 9]), at + 9))
  {
    hide Decode;
    if b[at] in {0xca, 0xcb} { DecodeFloat(b, at); }
  }

  /** How a string, an array or a map announces its length. */
  ghost predicate Announces(b: seq<byte>, at: nat, kind: Kind, n: nat, body: nat)
  {
    && at < |b| && body <= |b|
    && match kind
       case Text =>
         || (n < 32 && b[at] == 0xa0 + n && body == at + 1)
         || (b[at] == 0xd9 && at + 2 <= |b| && n == b[at + 1] && body == at + 2)
         || (b[at] == 0xda && at + 3 <= |b| && n == Two(b, at + 1) && body == at + 3)
       case Array =>
         || (n < 16 && b[at] == 0x90 + n && body == at + 1)
         || (b[at] == 0xdc && at + 3 <= |b| && n == Two(b, at + 1) && body == at + 3)
       case Table =>
         || (n < 16 && b[at] == 0x80 + n && body == at + 1)
         || (b[at] == 0xde && at + 3 <= |b| && n == Two(b, at + 1) && body == at + 3)
  }

  lemma AnnouncedHeader(b: seq<byte>, at: nat, kind: Kind, n: nat, body: nat)
    requires Announces(b, at, kind, n, body)
    ensures HeaderAt(b, at) == Ok(Header(kind, body - at, n))
  {}

  /** A string is the announced number of bytes. */
  lemma StringValues(b: seq<byte>, at: nat, n: nat, body: nat)
    requires Announces(b, at, Text, n, body)
    ensures Decode(b, at) == if body + n > |b| then Throws else Ok(Read(Str(b[body..body + n]), body + n))
  {
    hide Decode, Announces, HeaderAt;
    AnnouncedHeader(b, at, Text, n, body);
    AtMarker(b, at, Text, n, body);
    DecodeByHeader(b, at);
  }

  lemma AtMarker(b: seq<byte>, at: nat, kind: Kind, n: nat, body: nat)
    requires Announces(b, at, kind, n, body)
    ensures at < body <= |b|
  {}

  /** The values stand one behind the other from `at` to `end`. */
  ghost predicate Row(b: seq<byte>, at: nat, values: seq<Value>, end: nat)
    decreases |values|
  {
    if values == [] then at == end && at <= |b|
    else at <= |b| && exists m: nat :: Decode(b, at) == Ok(Read(values[0], m)) && Row(b, m, values[1..], end)
  }

  lemma {:induction false} RowIsItems(b: seq<byte>, at: nat, values: seq<Value>, end: nat)
    requires Row(b, at, values, end)
    ensures at <= |b| && DecodeItems(b, at, |values|) == Ok(Read(values, end))
    decreases |values|
  {
    hide Decode;
    if values != [] {
      var m: nat :| Decode(b, at) == Ok(Read(values[0], m)) && Row(b, m, values[1..], end);
      RowIsItems(b, m, values[1..], end);
      assert [values[0]] + values[1..] == values;
    }
  }

  /** Encoded items, written one after the other, stand in a row. */
  lemma {:induction false} EncodedItemsStandInARow(items: seq<Value>, b: seq<byte>, at: nat)
    requires EncodeAll(items).Ok? && Holds(b, at, EncodeAll(items).value)
    ensures Row(b, at, items, at + |EncodeAll(items).value|)
    decreases |items|
  {
    hide Decode, Encode;
    if items != [] {
      var first, rest := Encode(items[0]).value, EncodeAll(items[1..]).value;
      HoldsParts(b, at, first, rest);
      RoundTrip(items[0], b, at);
      EncodedItemsStandInARow(items[1..], b, at + |first|);
    }
  }

  /** An array is the announced number of values in a row; more than 256 throw. */
  lemma ArrayValues(b: seq<byte>, at: nat, n: nat, body: nat, items: seq<Value>, end: nat)
    requires Announces(b, at, Array, n, body)
    ensures n <= 256 && |items| == n && Row(b, body, items, end) ==> Decode(b, at) == Ok(Read(Arr(items), end))
    ensures n > 256 ==> Decode(b, at).Throws?
  {
    hide Decode, DecodeItems, Announces, HeaderAt, Row;
    AnnouncedHeader(b, at, Array, n, body);
    AtMarker(b, at, Array, n, body);
    DecodeByHeader(b, at);
    if Row(b, body, items, end) { RowIsItems(b, body, items, end); }
  }

  /** Keys and values in turn. */
  function InTurn(keys: seq<Value>, values: seq<Value>): (row: seq<Value>)
    requires |keys| == |values|
  {
    if keys == [] then [] else [keys[0], values[0]] + InTurn(keys[1..], values[1..])
  }

  lemma {:induction false} InTurnSplits(keys: seq<Value>, values: seq<Value>)
    requires |keys| == |values|
    ensures |InTurn(keys, values)| == 2 * |keys|
    ensures Evens(InTurn(keys, values)) == keys && Odds(InTurn(keys, values)) == values
    decreases |keys|
  {
    hide Evens, Odds;
    if keys == [] {
      NothingSplits();
    } else {
      InTurnSplits(keys[1..], values[1..]);
      SplitTwoMore(keys[0], values[0], InTurn(keys[1..], values[1..]));
      assert [keys[0]] + keys[1..] == keys && [values[0]] + values[1..] == values;
    }
  }

  lemma NothingSplits()
    ensures Evens<Value>([]) == [] && Odds<Value>([]) == []
  {}

  lemma SplitTwoMore(k: Value, v: Value, rest: seq<Value>)
    requires |rest| % 2 == 0
    ensures Evens([k, v] + rest) == [k] + Evens(rest) && Odds([k, v] + rest) == [v] + Odds(rest)
  {
    var row := [k, v] + rest;
    assert |row| == 2 + |rest|;
    forall i | 0 <= i < 1 + |rest| / 2
      ensures row[2 * i] == ([k] + Evens(rest))[i] && row[2 * i + 1] == ([v] + Odds(rest))[i]
    {
      if i > 0 { assert row[2 * i] == rest[2 * (i - 1)] && row[2 * i + 1] == rest[2 * (i - 1) + 1]; }
    }
  }

  /** A map is the announced number of keys and values in turn; more than 256 throw. */
  lemma MapValues(b: seq<byte>, at: nat, n: nat, body: nat, keys: seq<Value>, values: seq<Value>, end: nat)
    requires Announces(b, at, Table, n, body) && |keys| == |values|
    ensures n <= 256 && |keys| == n && Row(b, body, InTurn(keys, values), end) ==>
      Decode(b, at) == Ok(Read(Map(keys, values), end))
    ensures n > 256 ==> Decode(b, at).Throws?
  {
    hide Decode, DecodeItems, Announces, HeaderAt, Row, InTurn, Evens, Odds;
    AnnouncedHeader(b, at, Table, n, body);
    AtMarker(b, at, Table, n, body);
    DecodeByHeader(b, at);
    InTurnSplits(keys, values);
    if Row(b, body, InTurn(keys, values), end) { RowIsItems(b, body, InTurn(keys, values), end); }
  }

  /** The markers without a format throw. */
  lemma OtherMarkersThrow(b: seq<byte>, at: nat)
    requires at < |b|
    requires b[at] == 0xc1 || 0xc4 <= b[at] <= 0xc9 || b[at] == 0xcf || 0xd3 <= b[at] <= 0xd8
          || b[at] in {0xdb, 0xdd, 0xdf}
    ensures Decode(b, at).Throws?
  {
    hide DecodeStr, DecodeArr, DecodeMap;
  }

  /** Values are written in the shortest of their formats. */
  lemma EncodedSizes(v: Value)
    requires Encode(v).Ok?
    ensures var n := |Encode(v).value|;
      match v
      case Int(i) => n == (if i < 0x80 then 1 else if i < 0x100 then 2 else if i < 0x1_0000 then 3 else 5)
      case Str(text) => n == |text| + (if |text| < 32 then 1 else if |text| < 0x100 then 2 else 3)
      case Arr(items) => EncodeAll(items).Ok? && n == 1 + |EncodeAll(items).value|
      case _ => n == 1
  {}

  // ---------------------------------------------------------------------------
  // Decoding sees the value and nothing else
  // ---------------------------------------------------------------------------

  /** The n bytes of b at `at` are those of c at `ct`. */
  ghost predicate Alike(b: seq<byte>, at: nat, c: seq<byte>, ct: nat, n: nat)
  {
    && at + n <= |b| && ct + n <= |c|
    && forall i :: at <= i < at + n ==> b[i] == c[i - at + ct]
  }

  lemma AlikePart(b: seq<byte>, at: nat, c: seq<byte>, ct: nat, n: nat, from: nat, m: nat)
    requires Alike(b, at, c, ct, n) && from + m <= n
    ensures Alike(b, at + from, c, ct + from, m)
    ensures b[at + from..at + from + m] == c[ct + from..ct + from + m]
  {
    var x, y := b[at + from..at + from + m], c[ct + from..ct + from + m];
    assert forall k :: 0 <= k < m ==> x[k] == b[at + from + k];
    assert x == y;
  }

  /** `r` with its end moved. */
  function Moved<T>(r: Result<Read<T>>, at: nat, ct: nat): (m: Result<Read<T>>)
    requires r.Ok? ==> at <= r.value.at
  {
    if r.Throws? then Throws else Ok(Read(r.value.value, ct + (r.value.at - at)))
  }

  // A value that is not a container is read from its own bytes.
  lemma FlatIsLocal(b: seq<byte>, at: nat, c: seq<byte>, ct: nat)
    requires at < |b| && Decode(b, at).Ok? && Alike(b, at, c, ct, Decode(b, at).value.at - at)
    requires HeaderAt(b, at).Throws?
    ensures Decode(c, ct) == Moved(Decode(b, at), at, ct)
  {
    hide DecodeStr, DecodeArr, DecodeMap, HeaderAt, Decode;
    WithoutHeader(b, at);
    var m := b[at];
    assert c[ct] == m;
    if m in {0xca, 0xcb} { FloatIsLocal(b, at, c, ct); }
    else if m in {0xcc, 0xcd, 0xce, 0xd0, 0xd1, 0xd2} { NumberIsLocal(b, at, c, ct); }
    else { ByteIsLocal(b, at, c, ct); }
  }

  lemma FloatIsLocal(b: seq<byte>, at: nat, c: seq<byte>, ct: nat)
    requires at < |b| && b[at] in {0xca, 0xcb} && Decode(b, at).Ok?
    requires Alike(b, at, c, ct, Decode(b, at).value.at - at) && c[ct] == b[at]
    ensures Decode(c, ct) == Moved(Decode(b, at), at, ct)
  {
    hide Decode, Alike;
    var n := Decode(b, at).value.at - at;
    DecodeFloat(b, at);
    AlikeInside(b, at, c, ct, n);
    AlikePart(b, at, c, ct, n, 1, n - 1);
    DecodeFloat(c, ct);
  }

  lemma DecodeFloat(b: seq<byte>, at: nat)
    requires at < |b| && b[at] in {0xca, 0xcb}
    ensures var o, size := at + 1, if b[at] == 0xca then 4 else 8;
      Decode(b, at) == if o + size > |b| then Throws else Ok(Read(Float(b[o..o + size]), o + size))
  {
    hide DecodeStr, DecodeArr, DecodeMap;
  }

  lemma AlikeInside(b: seq<byte>, at: nat, c: seq<byte>, ct: nat, n: nat)
    requires Alike(b, at, c, ct, n)
    ensures at + n <= |b| && ct + n <= |c|
  {}

  lemma NumberIsLocal(b: seq<byte>, at: nat, c: seq<byte>, ct: nat)
    requires at < |b| && b[at] in {0xcc, 0xcd, 0xce, 0xd0, 0xd1, 0xd2} && Decode(b, at).Ok?
    requires Alike(b, at, c, ct, Decode(b, at).value.at - at) && c[ct] == b[at]
    ensures Decode(c, ct) == Moved(Decode(b, at), at, ct)
  {
    hide DecodeStr, DecodeArr, DecodeMap, Signed;
    var n := Decode(b, at).value.at - at;
    assert b[at + 1] == c[ct + 1];
    if n > 2 { assert b[at + 2] == c[ct + 2]; }
    if n > 4 { assert b[at + 3] == c[ct + 3] && b[at + 4] == c[ct + 4]; }
  }

  lemma ByteIsLocal(b: seq<byte>, at: nat, c: seq<byte>, ct: nat)
    requires at < |b| && Decode(b, at).Ok? && HeaderAt(b, at).Throws?
    requires b[at] !in {0xca, 0xcb, 0xcc, 0xcd, 0xce, 0xd0, 0xd1, 0xd2}
    requires Alike(b, at, c, ct, Decode(b, at).value.at - at) && c[ct] == b[at]
    ensures Decode(c, ct) == Moved(Decode(b, at), at, ct)
  {
    hide DecodeStr, DecodeArr, DecodeMap, HeaderAt;
    WithoutHeader(b, at);
  }

  datatype Kind = Text | Array | Table

  /** Strings, arrays and maps: where their contents begin and how many there are. */
  datatype Header = Header(kind: Kind, size: nat, length: nat)

  function HeaderAt(b: seq<byte>, at: nat): (h: Result<Header>)
    requires at < |b|
    ensures h.Ok? ==> at + h.value.size <= |b|
  {
    var m, o := b[at], at + 1;
    if m / 0x20 == 5 then Ok(Header(Text, 1, m % 0x20))
    else if m / 0x10 == 9 then Ok(Header(Array, 1, m % 0x10))
    else if m / 0x10 == 8 then Ok(Header(Table, 1, m % 0x10))
    else if m == 0xd9 && o + 1 <= |b| then Ok(Header(Text, 2, b[o]))
    else if m == 0xda && o + 2 <= |b| then Ok(Header(Text, 3, U16BE(b, o)))
    else if m == 0xdc && o + 2 <= |b| then Ok(Header(Array, 3, U16BE(b, o)))
    else if m == 0xde && o + 2 <= |b| then Ok(Header(Table, 3, U16BE(b, o)))
    else Throws
  }

  lemma DecodeByHeader(b: seq<byte>, at: nat)
    requires at < |b| && HeaderAt(b, at).Ok?
    ensures var h := HeaderAt(b, at).value;
      Decode(b, at) == match h.kind
        case Text => DecodeStr(b, at + h.size, h.length)
        case Array => DecodeArr(b, at + h.size, h.length)
        case Table => DecodeMap(b, at + h.size, h.length)
  {
    hide DecodeStr, DecodeArr, DecodeMap;
  }

  lemma WithoutHeader(b: seq<byte>, at: nat)
    requires at < |b| && HeaderAt(b, at).Throws? && Decode(b, at).Ok?
    ensures var m := b[at]; m / 0x10 != 9 && m / 0x10 != 8 && m / 0x20 != 5 && m !in {0xd9, 0xda, 0xdc, 0xde}
  {
    hide DecodeStr, DecodeArr, DecodeMap;
  }

  lemma HeaderIsLocal(b: seq<byte>, at: nat, c: seq<byte>, ct: nat)
    requires at < |b| && HeaderAt(b, at).Ok? && Alike(b, at, c, ct, HeaderAt(b, at).value.size)
    ensures ct < |c| && HeaderAt(c, ct) == HeaderAt(b, at)
  {
    var n := HeaderAt(b, at).value.size;
    assert b[at] == c[ct];
    if n > 1 { assert b[at + 1] == c[ct + 1]; }
    if n > 2 { assert b[at + 2] == c[ct + 2]; }
  }

  /** What is decoded, and where it ends, depends on the bytes of the value alone: not on where it lies, and not on what
      surrounds it. */
  lemma {:induction false} DecodeIsLocal(b: seq<byte>, at: nat, c: seq<byte>, ct: nat)
    requires at <= |b| && ct <= |c| && Decode(b, at).Ok? && Alike(b, at, c, ct, Decode(b, at).value.at - at)
    ensures Decode(c, ct) == Moved(Decode(b, at), at, ct)
    decreases |b| - at, 0, 0
  {
    hide Decode, DecodeItems, HeaderAt;
    NothingAtTheEnd(b, at);
    var h := HeaderAt(b, at);
    if h.Throws? {
      FlatIsLocal(b, at, c, ct);
    } else {
      DecodeByHeader(b, at);
      var size, length := h.value.size, h.value.length;
      var n := Decode(b, at).value.at - at;
      AlikePart(b, at, c, ct, n, 0, size);
      AlikePart(b, at, c, ct, n, size, n - size);
      HeaderIsLocal(b, at, c, ct);
      DecodeByHeader(c, ct);
      match h.value.kind
      case Text =>
      case Array => ItemsAreLocal(b, at + size, c, ct + size, length);
      case Table => ItemsAreLocal(b, at + size, c, ct + size, 2 * length);
    }
  }

  lemma NothingAtTheEnd(b: seq<byte>, at: nat)
    requires at <= |b| && Decode(b, at).Ok?
    ensures at < |b|
    ensures HeaderAt(b, at).Ok? ==> 0 < HeaderAt(b, at).value.size
  {}

  lemma {:induction false} ItemsAreLocal(b: seq<byte>, at: nat, c: seq<byte>, ct: nat, length: nat)
    requires at <= |b| && ct <= |c| && DecodeItems(b, at, length).Ok?
    requires Alike(b, at, c, ct, DecodeItems(b, at, length).value.at - at)
    ensures DecodeItems(c, ct, length) == Moved(DecodeItems(b, at, length), at, ct)
    decreases |b| - at, 1, length
  {
    hide Decode;
    if length > 0 {
      var n := DecodeItems(b, at, length).value.at - at;
      var m := Decode(b, at).value.at - at;
      AlikePart(b, at, c, ct, n, 0, m);
      AlikePart(b, at, c, ct, n, m, n - m);
      DecodeIsLocal(b, at, c, ct);
      ItemsAreLocal(b, at + m, c, ct + m, length - 1);
    }
  }

  /** A value that is cut short anywhere throws: no encoding begins another. */
  lemma TruncatedThrows(b: seq<byte>, at: nat, k: nat)
    requires at <= k <= |b| && Decode(b, at).Ok? && k < Decode(b, at).value.at
    ensures Decode(b[..k], at).Throws?
  {
    hide Decode;
    if Decode(b[..k], at).Ok? {
      DecodeIsLocal(b[..k], at, b, at);
    }
  }

  // ---------------------------------------------------------------------------
  // The decoder as the program writes it: a moving offset
  // ---------------------------------------------------------------------------

  class Decoder {
    const buffer: seq<byte>
    var offset: nat

    constructor (buffer: seq<byte>)
      ensures this.buffer == buffer && offset == 0
    {
      this.buffer := buffer;
      offset := 0;
    }

    // `r` and the new offset are what `expected` says; after an exception the offset means nothing.
    ghost predicate Agrees<T(!new)>(r: Result<T>, expected: Result<Read<T>>)
      reads this
    {
      match expected
      case Ok(read) => r == Ok(read.value) && offset == read.at
      case Throws => r.Throws?
    }

    method ReadValue() returns (r: Result<Value>)
      requires offset <= |buffer|
      modifies this`offset
      ensures Agrees(r, Decode(buffer, old(offset)))
      ensures r.Ok? ==> old(offset) < offset <= |buffer|
      decreases |buffer| - offset, 0, 0
    {
      hide DecodeStr, DecodeArr, DecodeMap;
      if offset + 1 > |buffer| { return Throws; }
      var marker := buffer[offset];
      offset := offset + 1;
      if marker <= 0x7f { return Ok(Int(marker)); }
      if marker >= 0xe0 { return Ok(Int(marker as int - 0x100)); }
      if marker / 0x20 == 5 { r := ReadString(marker % 0x20); return; }
      if marker / 0x10 == 9 { r := ReadArray(marker % 0x10); return; }
      if marker / 0x10 == 8 { r := ReadMap(marker % 0x10); return; }
      r := ReadMarked(marker);
    }

    method ReadMarked(marker: byte) returns (r: Result<Value>)
      requires 0 < offset <= |buffer| && buffer[offset - 1] == marker && 0xc0 <= marker < 0xe0
      modifies this`offset
      ensures Agrees(r, Decode(buffer, old(offset) - 1))
      ensures r.Ok? ==> old(offset) <= offset <= |buffer|
      decreases |buffer| - offset, 3, 0
    {
      hide DecodeStr, DecodeArr, DecodeMap;
      match marker
      case 0xc0 => return Ok(Nil);
      case 0xc2 => return Ok(Bool(false));
      case 0xc3 => return Ok(Bool(true));
      case 0xca =>
        if offset + 4 > |buffer| { return Throws; }
        offset := offset + 4;
        return Ok(Float(buffer[offset - 4..offset]));
      case 0xcb =>
        if offset + 8 > |buffer| { return Throws; }
        offset := offset + 8;
        return Ok(Float(buffer[offset - 8..offset]));
      case 0xcc =>
        if offset + 1 > |buffer| { return Throws; }
        offset := offset + 1;
        return Ok(Int(buffer[offset - 1]));
      case 0xcd =>
        if offset + 2 > |buffer| { return Throws; }
        offset := offset + 2;
        return Ok(Int(U16BE(buffer, offset - 2)));
      case 0xce =>
        if offset + 4 > |buffer| { return Throws; }
        offset := offset + 4;
        return Ok(Int(U32BE(buffer, offset - 4)));
      case 0xd0 =>
        if offset + 1 > |buffer| { return Throws; }
        offset := offset + 1;
        return Ok(Int(Signed(buffer[offset - 1], 0x100)));
      case 0xd1 =>
        if offset + 2 > |buffer| { return Throws; }
        offset := offset + 2;
        return Ok(Int(Signed(U16BE(buffer, offset - 2), 0x1_0000)));
      case 0xd2 =>
        if offset + 4 > |buffer| { return Throws; }
        offset := offset + 4;
        return Ok(Int(Signed(U32BE(buffer, offset - 4), 0x1_0000_0000)));
      case 0xd9 =>
        if offset + 1 > |buffer| { return Throws; }
        offset := offset + 1;
        r := ReadString(buffer[offset - 1]);
      case 0xda =>
        if offset + 2 > |buffer| { return Throws; }
        offset := offset + 2;
        r := ReadString(U16BE(buffer, offset - 2));
      case 0xdc =>
        if offset + 2 > |buffer| { return Throws; }
        offset := offset + 2;
        r := ReadArray(U16BE(buffer, offset - 2));
      case 0xde =>
        if offset + 2 > |buffer| { return Throws; }
        offset := offset + 2;
        r := ReadMap(U16BE(buffer, offset - 2));
      case _ => return Throws;
    }

    method ReadString(length: nat) returns (r: Result<Value>)
      requires offset <= |buffer|
      modifies this`offset
      ensures Agrees(r, DecodeStr(buffer, old(offset), length))
      ensures r.Ok? ==> old(offset) <= offset <= |buffer|
    {
      if offset + length > |buffer| { return Throws; }
      r := Ok(Str(buffer[offset..offset + length]));
      offset := offset + length;
    }

    method ReadArray(length: nat) returns (r: Result<Value>)
      requires offset <= |buffer|
      modifies this`offset
      ensures Agrees(r, DecodeArr(buffer, old(offset), length))
      ensures r.Ok? ==> old(offset) <= offset <= |buffer|
      decreases |buffer| - offset, 2, length
    {
      if length > 256 { return Throws; }
      var items := ReadItems(length);
      r := if items.Ok? then Ok(Arr(items.value)) else Throws;
    }

    method ReadItems(count: nat) returns (r: Result<seq<Value>>)
      requires offset <= |buffer|
      modifies this`offset
      ensures Agrees(r, DecodeItems(buffer, old(offset), count))
      ensures r.Ok? ==> old(offset) <= offset <= |buffer| && |r.value| == count
      decreases |buffer| - offset, 1, count
    {
      hide Decode, DecodeItems, Joined;
      var items: seq<Value> := [];
      JoinedEnds(items, buffer, offset, count);
      while |items| < count
        invariant |items| <= count && old(offset) <= offset <= |buffer|
        invariant DecodeItems(buffer, old(offset), count) == Joined(items, DecodeItems(buffer, offset, count - |items|))
        decreases count - |items|
      {
        JoinedStep(items, buffer, offset, count - |items|);
        var item := ReadValue();
        if item.Throws? { return Throws; }
        items := items + [item.value];
      }
      JoinedEnds(items, buffer, offset, 0);
      r := Ok(items);
    }

    method ReadMap(length: nat) returns (r: Result<Value>)
      requires offset <= |buffer|
      modifies this`offset
      ensures Agrees(r, DecodeMap(buffer, old(offset), length))
      ensures r.Ok? ==> old(offset) <= offset <= |buffer|
      decreases |buffer| - offset, 2, length
    {
      if length > 256 { return Throws; }
      var items := ReadItems(2 * length);
      r := if items.Ok? then Ok(Map(Evens(items.value), Odds(items.value))) else Throws;
    }
  }

  function Joined(before: seq<Value>, rest: Result<Read<seq<Value>>>): (r: Result<Read<seq<Value>>>)
  {
    var x :- rest;
    Ok(Read(before + x.value, x.at))
  }

  lemma JoinedEnds(before: seq<Value>, b: seq<byte>, at: nat, n: nat)
    requires at <= |b|
    ensures Joined([], DecodeItems(b, at, n)) == DecodeItems(b, at, n)
    ensures n == 0 ==> Joined(before, DecodeItems(b, at, n)) == Ok(Read(before, at))
  {
    var items := DecodeItems(b, at, n);
    if items.Ok? { assert [] + items.value.value == items.value.value; }
    assert before + [] == before;
  }

  lemma JoinedStep(before: seq<Value>, b: seq<byte>, at: nat, n: nat)
    requires at <= |b| && n > 0
    ensures var first := Decode(b, at);
      Joined(before, DecodeItems(b, at, n)) ==
      if first.Throws? then Throws
      else Joined(before + [first.value.value], DecodeItems(b, first.value.at, n - 1))
  {
    hide Decode;
    var first := Decode(b, at);
    if first.Ok? {
      var rest := DecodeItems(b, first.value.at, n - 1);
      if rest.Ok? { ConcatAssociates(before, [first.value.value], rest.value.value); }
    }
  }

  method DecodeMessagePack(b: seq<byte>) returns (r: Result<Value>)
    ensures r == DecodeWhole(b)
  {
    hide Decode;
    var decoder := new Decoder(b);
    r := decoder.ReadValue();
    if r.Ok? && decoder.offset != |b| { r := Throws; }
  }
}
