/** Protobuf wire fields (Protocol Buffers Encoding, 'Base 128 Varints'): the `fields` parser
    of the negotiation fixture and the two `varint` printers. */
module WireFields {
  import opened Bytes

  // ---------------------------------------------------------------- printers

  /** The shortest base-128 form. */
  function Varint(n: nat): (s: Octets)
    ensures s != []
  {
    if n > 127 then [n % 128 + 128] + Varint(n / 128) else [n]
  }

  /** The printer of the preset fixture. */
  method PrintVarint(value: nat) returns (s: Octets)
    ensures s == Varint(value)
  {
    var n := value;
    s := [];
    while n > 127
      invariant s + Varint(n) == Varint(value)
    {
      assert s + Varint(n) == s + [n % 128 + 128] + Varint(n / 128);
      s := s + [n % 128 + 128];
      n := n / 128;
    }
    s := s + [n];
  }

  // ------------------------------------------------------------------ parser

  /** A parsed number and the offset behind it. */
  datatype Read = Read(value: nat, offset: nat)

  /** The reader's loop with `left` of its ten rounds to go. */
  function ReadVarint(raw: Octets, offset: nat, left: nat): (r: Result<Read>)
    ensures r.Ok? ==> offset < r.value.offset <= |raw|
    decreases left, raw, offset
  {
    if left == 0 || offset >= |raw| then Raised
    else if raw[offset] < 128 then Ok(Read(raw[offset], offset + 1))
    else
      match ReadVarint(raw, offset + 1, left - 1)
      case Raised => Raised
      case Ok(rest) => Ok(Read(raw[offset] - 128 + 128 * rest.value, rest.offset))
  }

  function Pow128(n: nat): (p: nat)
    ensures p > 0
  {
    if n == 0 then 1 else 128 * Pow128(n - 1)
  }

  method VarintAt(raw: Octets, start: nat) returns (r: Result<Read>)
    ensures r == ReadVarint(raw, start, 10)
  {
    var value: nat, offset: nat := 0, start;
    for n := 0 to 10
      invariant ReadVarint(raw, start, 10) == match ReadVarint(raw, offset, 10 - n)
                                              case Raised => Raised
                                              case Ok(rest) => Ok(Read(value + Pow128(n) * rest.value, rest.offset))
    {
      if offset >= |raw| {
        return Raised;
      }
      var octet := raw[offset];
      offset := offset + 1;
      ghost var before := value;
      value := value + Pow128(n) * (octet % 128);
      if octet < 128 {
        return Ok(Read(value, offset));
      }
      ghost var rest := ReadVarint(raw, offset, 10 - n - 1);
      if rest.Ok? {
        Horner(before, Pow128(n), octet - 128, rest.value.value);
      }
    }
    r := Raised;
  }

  lemma Horner(value: nat, p: nat, digit: nat, rest: nat)
    ensures value + p * (digit + 128 * rest) == value + p * digit + 128 * p * rest
  {}

  datatype Value = Number(n: nat) | Blob(bytes: Octets)
  datatype Field = Field(number: nat, kind: nat, value: Value)

  /** A slice clamps at the end of the input, as Python's does. */
  function Slice(raw: Octets, offset: nat, size: nat): Octets {
    if offset + size <= |raw| then raw[offset..offset + size]
    else if offset <= |raw| then raw[offset..]
    else []
  }

  /** The payload part of one turn of the loop. */
  function ReadPayload(raw: Octets, kind: nat, offset: nat): (r: Result<(Value, nat)>)
    ensures r.Ok? ==> offset < r.value.1
  {
    if kind == 0 then
      match ReadVarint(raw, offset, 10)
      case Raised => Raised
      case Ok(v) => Ok((Number(v.value), v.offset))
    else if kind == 2 then
      match ReadVarint(raw, offset, 10)
      case Raised => Raised
      case Ok(size) => Ok((Blob(Slice(raw, size.offset, size.value)), size.offset + size.value))
    else if kind == 1 || kind == 5 then
      var size := if kind == 1 then 8 else 4;
      Ok((Blob(Slice(raw, offset, size)), offset + size))
    else Raised
  }

  /** One turn of the parser's loop: the field and the offset behind it, which an over-long
      slice leaves past the end. */
  function ReadField(raw: Octets, offset: nat): (r: Result<(Field, nat)>)
    ensures r.Ok? ==> offset < r.value.1
  {
    match ReadVarint(raw, offset, 10)
    case Raised => Raised
    case Ok(tag) =>
      match ReadPayload(raw, tag.value % 8, tag.offset)
      case Raised => Raised
      case Ok(payload) => Ok((Field(tag.value / 8, tag.value % 8, payload.0), payload.1))
  }

  function FieldsFrom(raw: Octets, offset: nat): Result<seq<Field>>
    decreases |raw| - offset
  {
    if offset < |raw| then
      match ReadField(raw, offset)
      case Raised => Raised
      case Ok(first) =>
        match FieldsFrom(raw, first.1)
        case Raised => Raised
        case Ok(rest) => Ok([first.0] + rest)
    else if offset == |raw| then Ok([])
    else Raised
  }

  function Fields(raw: Octets): Result<seq<Field>> {
    FieldsFrom(raw, 0)
  }

  /** What a run of the loop still owes when `result` has been collected. */
  function Prepend(result: seq<Field>, rest: Result<seq<Field>>): Result<seq<Field>> {
    match rest
    case Raised => Raised
    case Ok(fields) => Ok(result + fields)
  }

  lemma Collected(raw: Octets, offset: nat, result: seq<Field>)
    ensures offset == |raw| ==> Prepend(result, FieldsFrom(raw, offset)) == Ok(result)
    ensures offset > |raw| ==> FieldsFrom(raw, offset) == Raised
    ensures offset < |raw| && ReadField(raw, offset).Raised? ==> FieldsFrom(raw, offset) == Raised
    ensures offset < |raw| && ReadField(raw, offset).Ok? ==>
              var turn := ReadField(raw, offset).value;
              Prepend(result, FieldsFrom(raw, offset)) == Prepend(result + [turn.0], FieldsFrom(raw, turn.1))
  {
    assert result + [] == result;
    if offset < |raw| && ReadField(raw, offset).Ok? {
      var turn := ReadField(raw, offset).value;
      var rest := FieldsFrom(raw, turn.1);
      if rest.Ok? {
        assert result + ([turn.0] + rest.value) == (result + [turn.0]) + rest.value;
      }
    }
  }

  method ParseFields(raw: Octets) returns (r: Result<seq<Field>>)
    ensures r == Fields(raw)
  {
    var offset: nat := 0;
    var result: seq<Field> := [];
    assert forall s: seq<Field> :: [] + s == s;
    while offset < |raw|
      invariant Fields(raw) == Prepend(result, FieldsFrom(raw, offset))
      decreases |raw| - offset
    {
      Collected(raw, offset, result);
      var tag := VarintAt(raw, offset);
      if tag.Raised? {
        return Raised;
      }
      var kind, number := tag.value.value % 8, tag.value.value / 8;
      offset := tag.value.offset;
      var value;
      if kind == 0 {
        var v := VarintAt(raw, offset);
        if v.Raised? {
          return Raised;
        }
        value, offset := Number(v.value.value), v.value.offset;
      } else if kind == 2 {
        var size := VarintAt(raw, offset);
        if size.Raised? {
          return Raised;
        }
        value, offset := Blob(Slice(raw, size.value.offset, size.value.value)), size.value.offset + size.value.value;
      } else if kind == 1 || kind == 5 {
        var size := if kind == 1 then 8 else 4;
        value, offset := Blob(Slice(raw, offset, size)), offset + size;
      } else {
        return Raised;
      }
      result := result + [Field(number, kind, value)];
    }
    Collected(raw, offset, result);
    r := if offset == |raw| then Ok(result) else Raised;
  }

  // ------------------------------------------------- what the parser accepts

  /** `s` is a base-128 form of `v`, not necessarily the shortest. */
  ghost predicate IsVarint(s: Octets, v: nat) {
    && 0 < |s|
    && (if |s| == 1 then s[0] < 128 && v == s[0]
        else s[0] >= 128 && v >= s[0] - 128 && (v - (s[0] - 128)) % 128 == 0
             && IsVarint(s[1..], (v - (s[0] - 128)) / 128))
  }

  /** `s` is one complete field: a tag of at most ten octets, and the payload its kind calls for. */
  ghost predicate IsField(s: Octets, f: Field) {
    exists k: nat ::
      && k <= |s| && k <= 10 && IsVarint(s[..k], 8 * f.number + f.kind)
      && IsPayload(s[k..], f)
  }

  ghost predicate IsPayload(s: Octets, f: Field) {
    match f.kind
    case 0 => |s| <= 10 && f.value.Number? && IsVarint(s, f.value.n)
    case 1 => |s| == 8 && f.value == Blob(s)
    case 5 => |s| == 4 && f.value == Blob(s)
    case 2 => f.value.Blob? && IsSized(s, f.value.bytes)
    case _ => false
  }

  /** A length of at most ten octets, then that many bytes. */
  ghost predicate IsSized(s: Octets, bytes: Octets) {
    |bytes| <= |s| <= |bytes| + 10 && IsVarint(s[..|s| - |bytes|], |bytes|) && s[|s| - |bytes|..] == bytes
  }

  /** `raw` is the given fields laid end to end. */
  ghost predicate Tiled(raw: Octets, fields: seq<Field>)
    decreases |fields|
  {
    if fields == [] then raw == []
    else exists k: nat :: 0 < k <= |raw| && IsField(raw[..k], fields[0]) && Tiled(raw[k..], fields[1..])
  }

  /** Reading finds exactly the base-128 form that starts at the offset. */
  lemma {:induction false} VarintFound(raw: Octets, offset: nat, left: nat, v: nat, end: nat)
    ensures ReadVarint(raw, offset, left) == Ok(Read(v, end))
       <==> offset < end <= |raw| && end - offset <= left && IsVarint(raw[offset..end], v)
    decreases left
  {
    if left > 0 && offset < |raw| && raw[offset] >= 128 {
      var low := raw[offset] - 128;
      if v >= low && (v - low) % 128 == 0 {
        VarintFound(raw, offset + 1, left - 1, (v - low) / 128, end);
        if offset + 1 < end <= |raw| {
          assert raw[offset..end][1..] == raw[offset + 1..end];
        }
      }
    }
  }

  lemma SizedFound(raw: Octets, offset: nat, bytes: Octets, end: nat)
    requires offset <= end <= |raw|
    ensures IsSized(raw[offset..end], bytes)
       <==> var size := ReadVarint(raw, offset, 10);
            size.Ok? && size.value.value == |bytes| && size.value.offset + |bytes| == end
            && Slice(raw, size.value.offset, |bytes|) == bytes
  {
    var s := raw[offset..end];
    if |bytes| <= |s| {
      var body := end - |bytes|;
      assert s[..|s| - |bytes|] == raw[offset..body] && s[|s| - |bytes|..] == raw[body..end];
      VarintFound(raw, offset, 10, |bytes|, body);
    }
  }

  lemma PayloadFound(raw: Octets, f: Field, offset: nat, end: nat)
    requires offset <= end <= |raw|
    ensures ReadPayload(raw, f.kind, offset) == Ok((f.value, end)) <==> IsPayload(raw[offset..end], f)
  {
    match f.value {
      case Number(n) =>
        VarintFound(raw, offset, 10, n, end);
      case Blob(bytes) =>
        SizedFound(raw, offset, bytes, end);
    }
  }

  /** A turn of the loop that stays inside the input has read a complete field. */
  lemma ReadIsField(raw: Octets, offset: nat, f: Field, end: nat)
    requires offset <= end <= |raw| && ReadField(raw, offset) == Ok((f, end))
    ensures IsField(raw[offset..end], f)
  {
    var s := raw[offset..end];
    var tag := ReadVarint(raw, offset, 10).value;
    TagThenPayload(raw, offset, f, tag.offset, end);
    assert IsVarint(s[..tag.offset - offset], 8 * f.number + f.kind);
  }

  lemma TagThenPayload(raw: Octets, offset: nat, f: Field, body: nat, end: nat)
    requires offset <= body <= end <= |raw|
    ensures ReadVarint(raw, offset, 10) == Ok(Read(8 * f.number + f.kind, body))
       <==> 0 < body - offset <= 10 && IsVarint(raw[offset..end][..body - offset], 8 * f.number + f.kind)
    ensures ReadPayload(raw, f.kind, body) == Ok((f.value, end)) <==> IsPayload(raw[offset..end][body - offset..], f)
  {
    var s := raw[offset..end];
    assert s[..body - offset] == raw[offset..body] && s[body - offset..] == raw[body..end];
    VarintFound(raw, offset, 10, 8 * f.number + f.kind, body);
    PayloadFound(raw, f, body, end);
  }

  /** A complete field is what a turn of the loop reads there. */
  lemma FieldIsRead(raw: Octets, offset: nat, f: Field, end: nat)
    requires offset <= end <= |raw| && IsField(raw[offset..end], f)
    ensures ReadField(raw, offset) == Ok((f, end))
  {
    var k := CutTag(raw[offset..end], f);
    var body := offset + k;
    assert ReadVarint(raw, offset, 10) == Ok(Read(8 * f.number + f.kind, body))
        && ReadPayload(raw, f.kind, body) == Ok((f.value, end)) by {
      TagThenPayload(raw, offset, f, body, end);
    }
    Assembled(raw, offset, f, body, end);
  }

  lemma CutTag(s: Octets, f: Field) returns (k: nat)
    requires IsField(s, f)
    ensures 0 < k <= |s| && k <= 10 && IsVarint(s[..k], 8 * f.number + f.kind) && IsPayload(s[k..], f) && f.kind < 8
  {
    k :| k <= |s| && k <= 10 && IsVarint(s[..k], 8 * f.number + f.kind) && IsPayload(s[k..], f);
  }

  lemma Assembled(raw: Octets, offset: nat, f: Field, body: nat, end: nat)
    requires f.kind < 8
    requires ReadVarint(raw, offset, 10) == Ok(Read(8 * f.number + f.kind, body))
    requires ReadPayload(raw, f.kind, body) == Ok((f.value, end))
    ensures ReadField(raw, offset) == Ok((f, end))
  {}

  lemma {:induction false} ParsedIsTiled(raw: Octets, offset: nat, fields: seq<Field>)
    requires offset <= |raw| && FieldsFrom(raw, offset) == Ok(fields)
    ensures Tiled(raw[offset..], fields)
    decreases |raw| - offset
  {
    if offset < |raw| {
      var (f, end) := ReadField(raw, offset).value;
      EndBounds(raw, end);
      ReadIsField(raw, offset, f, end);
      ParsedIsTiled(raw, end, fields[1..]);
      var rest := raw[offset..];
      assert rest[..end - offset] == raw[offset..end] && rest[end - offset..] == raw[end..];
    }
  }

  lemma {:induction false} TiledIsParsed(raw: Octets, offset: nat, fields: seq<Field>)
    requires offset <= |raw| && Tiled(raw[offset..], fields)
    ensures FieldsFrom(raw, offset) == Ok(fields)
    decreases |raw| - offset
  {
    if fields != [] {
      var rest := raw[offset..];
      var k := CutField(rest, fields);
      var end := offset + k;
      assert rest[..k] == raw[offset..end] && rest[k..] == raw[end..];
      assert ReadField(raw, offset) == Ok((fields[0], end)) by {
        FieldIsRead(raw, offset, fields[0], end);
      }
      TiledIsParsed(raw, end, fields[1..]);
      assert fields == [fields[0]] + fields[1..];
    }
  }

  lemma CutField(s: Octets, fields: seq<Field>) returns (k: nat)
    requires fields != [] && Tiled(s, fields)
    ensures 0 < k <= |s| && IsField(s[..k], fields[0]) && Tiled(s[k..], fields[1..])
  {
    k :| 0 < k <= |s| && IsField(s[..k], fields[0]) && Tiled(s[k..], fields[1..]);
  }

  lemma EndBounds(raw: Octets, offset: nat)
    ensures FieldsFrom(raw, offset).Ok? ==> offset <= |raw|
  {}

  /** The parser accepts exactly the inputs tiled by complete fields. A slice that runs past
      the end is never accepted: the final length check catches it. */
  lemma FieldsIffTiled(raw: Octets, fields: seq<Field>)
    ensures Fields(raw) == Ok(fields) <==> Tiled(raw, fields)
  {
    assert raw[0..] == raw;
    if Fields(raw) == Ok(fields) {
      ParsedIsTiled(raw, 0, fields);
    }
    if Tiled(raw, fields) {
      TiledIsParsed(raw, 0, fields);
    }
  }

  /** No input is tiled by two different field lists. */
  lemma OneParse(raw: Octets, a: seq<Field>, b: seq<Field>)
    requires Tiled(raw, a) && Tiled(raw, b)
    ensures a == b
  {
    FieldsIffTiled(raw, a);
    FieldsIffTiled(raw, b);
  }

  // --------------------------------------------------------------- round trip

  function PrintPayload(f: Field): Octets {
    match f.value
    case Number(n) => Varint(n)
    case Blob(bytes) => if f.kind == 2 then Varint(|bytes|) + bytes else bytes
  }

  function PrintField(f: Field): (s: Octets)
    ensures s != []
  {
    Varint(8 * f.number + f.kind) + PrintPayload(f)
  }

  function PrintFields(fields: seq<Field>): Octets {
    if fields == [] then [] else PrintField(fields[0]) + PrintFields(fields[1..])
  }

  /** What ten base-128 digits can carry: 2 to the 70th. */
  const LIMIT: nat := 0x40_0000_0000_0000_0000

  predicate Printable(f: Field) {
    && 8 * f.number + f.kind < LIMIT
    && match f.value
       case Number(n) => f.kind == 0 && n < LIMIT
       case Blob(bytes) =>
         (f.kind == 1 && |bytes| == 8) || (f.kind == 5 && |bytes| == 4) || (f.kind == 2 && |bytes| < LIMIT)
  }

  lemma {:induction false} VarintIsVarint(n: nat, digits: nat)
    requires n < Pow128(digits) && digits > 0
    ensures IsVarint(Varint(n), n) && |Varint(n)| <= digits
  {
    if n > 127 {
      assert Varint(n)[1..] == Varint(n / 128);
      VarintIsVarint(n / 128, digits - 1);
    }
  }

  lemma TenDigits()
    ensures Pow128(10) == LIMIT
  {
    assert Pow128(4) == 0x1000_0000;
    assert Pow128(7) == 0x2_0000_0000_0000;
  }

  lemma PrintedField(f: Field)
    requires Printable(f)
    ensures IsField(PrintField(f), f)
  {
    TenDigits();
    var tag := Varint(8 * f.number + f.kind);
    VarintIsVarint(8 * f.number + f.kind, 10);
    var s := PrintField(f);
    assert s[..|tag|] == tag && s[|tag|..] == PrintPayload(f);
    match f.value {
      case Number(n) =>
        VarintIsVarint(n, 10);
      case Blob(bytes) =>
        if f.kind == 2 {
          VarintIsVarint(|bytes|, 10);
          var k := |Varint(|bytes|)|;
          assert PrintPayload(f)[..k] == Varint(|bytes|) && PrintPayload(f)[k..] == bytes;
        }
    }
    assert IsPayload(s[|tag|..], f);
  }

  lemma {:induction false} PrintedTiles(fields: seq<Field>)
    requires forall i :: 0 <= i < |fields| ==> Printable(fields[i])
    ensures Tiled(PrintFields(fields), fields)
  {
    if fields != [] {
      var head := PrintField(fields[0]);
      PrintedField(fields[0]);
      PrintedTiles(fields[1..]);
      var raw := PrintFields(fields);
      assert raw[..|head|] == head && raw[|head|..] == PrintFields(fields[1..]);
    }
  }

  /** Printing any field list and parsing it gives the list back. */
  lemma FieldsRoundTrip(fields: seq<Field>)
    requires forall i :: 0 <= i < |fields| ==> Printable(fields[i])
    ensures Fields(PrintFields(fields)) == Ok(fields)
  {
    PrintedTiles(fields);
    FieldsIffTiled(PrintFields(fields), fields);
  }

  /** The bound is sharp: a number the ten digits cannot carry is printed but never read. */
  lemma VarintReadIffBelowLimit(n: nat)
    ensures ReadVarint(Varint(n), 0, 10) == Ok(Read(n, |Varint(n)|)) <==> n < LIMIT
    ensures n >= LIMIT ==> ReadVarint(Varint(n), 0, 10) == Raised
  {
    TenDigits();
    if n < LIMIT {
      VarintIsVarint(n, 10);
      VarintFound(Varint(n), 0, 10, n, |Varint(n)|);
      assert Varint(n)[0..|Varint(n)|] == Varint(n);
    } else {
      TooLong(n, Varint(n), 0, 10);
    }
  }

  lemma {:induction false} TooLong(n: nat, raw: Octets, offset: nat, left: nat)
    requires n >= Pow128(left) && offset <= |raw| && raw[offset..] == Varint(n)
    ensures ReadVarint(raw, offset, left) == Raised
    decreases left
  {
    if left > 0 {
      assert n > 127;
      assert raw[offset + 1..] == raw[offset..][1..] == Varint(n / 128);
      TooLong(n / 128, raw, offset + 1, left - 1);
    }
  }
}
