/** Length-prefixed discovery packets: `packet` of the authorization admission fixture, and
    the in-place change of its account field by the account metadata fixture. */
module DiscoveryPacket {
  import opened Bytes
  import opened WireFields

  type Account = a: nat | a < 0x1_0000_0000_0000_0000

  const MAGIC: Octets := [255, 255, 255, 255, 0x21, 0x4C, 0x5F, 0xA0]

  /** Key and session token, when the event carries them. */
  datatype Material = Material(key: Octets, token: Octets)

  datatype Event = Event(result: nat, material: Option<Material>, client: nat)

  /** `struct.pack("<I", n)`; larger values raise. */
  const WORD: nat := 0x1_0000_0000

  function MaterialBody(material: Option<Material>): Octets {
    match material
    case None => []
    case Some(m) => [0x1A] + Varint(|m.key|) + m.key + [0x22] + Varint(|m.token|) + m.token
  }

  function Body(e: Event, account: Account): Octets {
    [0x08] + Varint(e.result) + [0x11] + LittleEndian(account, 8) + MaterialBody(e.material)
  }

  /** The body with the account field changed. */
  function BodyWith(e: Event, change: Change): Octets {
    [0x08] + Varint(e.result) + AccountField(change) + MaterialBody(e.material)
  }

  function Header(e: Event): Octets {
    [0x08] + Varint(e.client) + [0x10, 0x04]
  }

  function Frame(header: Octets, body: Octets): Result<Octets> {
    if |header| < WORD && |body| < WORD then
      Ok(MAGIC + LittleEndian(|header|, 4) + header + LittleEndian(|body|, 4) + body)
    else Raised
  }

  /** `packet` of the admission fixture. */
  function Packet(e: Event, account: Account): Result<Octets> {
    Frame(Header(e), Body(e, account))
  }

  /** The new account, or `None` for `absent`. */
  type Change = Option<Account>

  function AccountField(change: Change): Octets {
    match change
    case None => []
    case Some(account) => [0x11] + LittleEndian(account, 8)
  }

  /** `packet` of the metadata fixture: the account field of an admission packet is changed in
      place, at the fixed position behind a one-octet result. */
  function Rewrite(wire: Octets, change: Change): Result<Octets> {
    if |wire| < 12 then Raised
    else
      var size := FromLittleEndian(wire[8..12]);
      var body := From(wire, 16 + size);
      if |body| < 3 || body[2] != 0x11 then Raised
      else
        var changed := body[..2] + AccountField(change) + From(body, 11);
        if |changed| < WORD then Ok(Slice(wire, 0, 12 + size) + LittleEndian(|changed|, 4) + changed) else Raised
  }

  /** `s[start:]` */
  function From(s: Octets, start: nat): Octets {
    if start <= |s| then s[start..] else []
  }

  // ---------------------------------------------------------------- framing

  /** Header and body of a well framed packet. */
  function Unframe(wire: Octets): Option<(Octets, Octets)> {
    if |wire| < 16 || wire[..8] != MAGIC then None
    else
      var size := FromLittleEndian(wire[8..12]);
      if |wire| < 16 + size then None
      else
        var header, body := wire[12..12 + size], wire[16 + size..];
        if FromLittleEndian(wire[12 + size..16 + size]) == |body| then Some((header, body)) else None
  }

  lemma FourBytes()
    ensures Pow256(4) == WORD
  {}

  /** Where the parts of a framed packet lie. */
  lemma FrameLayout(header: Octets, body: Octets)
    requires |header| < WORD && |body| < WORD
    ensures var wire := Frame(header, body).value;
            && |wire| == 16 + |header| + |body| && wire[..8] == MAGIC
            && FromLittleEndian(wire[8..12]) == |header| && wire[12..12 + |header|] == header
            && wire[..12 + |header|] == MAGIC + LittleEndian(|header|, 4) + header
            && FromLittleEndian(wire[12 + |header|..16 + |header|]) == |body| && wire[16 + |header|..] == body
  {
    var wire := Frame(header, body).value;
    FourBytes();
    LittleEndianRoundTrip(|header|, 4);
    LittleEndianRoundTrip(|body|, 4);
    assert wire[8..12] == LittleEndian(|header|, 4);
    assert wire[12 + |header|..16 + |header|] == LittleEndian(|body|, 4);
  }

  lemma UnframeInvertsFrame(header: Octets, body: Octets)
    requires |header| < WORD && |body| < WORD
    ensures Unframe(Frame(header, body).value) == Some((header, body))
  {
    FrameLayout(header, body);
  }

  /** The change touches only the body and the length in front of it: whatever it returns is
      framed again, with the old header. */
  lemma RewriteKeepsFrame(header: Octets, body: Octets, change: Change)
    requires |header| < WORD && |body| < WORD
    ensures Rewrite(Frame(header, body).value, change)
         == if |body| > 2 && body[2] == 0x11 then Frame(header, body[..2] + AccountField(change) + From(body, 11))
            else Raised
  {
    FrameLayout(header, body);
  }

  // ------------------------------------------------------------------ fields

  function MaterialFields(material: Option<Material>): seq<Field> {
    match material
    case None => []
    case Some(m) => [Field(3, 2, Blob(m.key)), Field(4, 2, Blob(m.token))]
  }

  function AccountFields(change: Change): seq<Field> {
    match change
    case None => []
    case Some(account) => [Field(2, 1, Blob(LittleEndian(account, 8)))]
  }

  /** What a body should say: the result, the account if there is one, the material. */
  function Expected(e: Event, change: Change): seq<Field> {
    [Field(1, 0, Number(e.result))] + AccountFields(change) + MaterialFields(e.material)
  }

  lemma PrintExpected(e: Event, change: Change)
    ensures PrintFields(Expected(e, change)) == BodyWith(e, change)
  {
    hide Varint, PrintFields, PrintField, MaterialBody, MaterialFields, AccountField, AccountFields;
    var result := Field(1, 0, Number(e.result));
    PrintConcat([result] + AccountFields(change), MaterialFields(e.material));
    PrintConcat([result], AccountFields(change));
    PrintOne(result);
    PrintResult(e.result);
    PrintAccount(change);
    PrintMaterial(e.material);
  }

  lemma PrintResult(result: nat)
    ensures PrintField(Field(1, 0, Number(result))) == [0x08] + Varint(result)
  {
    SmallTag(8);
  }

  lemma PrintAccount(change: Change)
    ensures PrintFields(AccountFields(change)) == AccountField(change)
  {
    SmallTag(0x11);
    hide Varint, LittleEndian;
    if change.Some? {
      PrintOne(AccountFields(change)[0]);
    }
  }

  lemma PrintMaterial(material: Option<Material>)
    ensures PrintFields(MaterialFields(material)) == MaterialBody(material)
  {
    match material {
      case None =>
      case Some(m) =>
        PrintConcat([Field(3, 2, Blob(m.key))], [Field(4, 2, Blob(m.token))]);
        PrintSized(3, m.key);
        PrintSized(4, m.token);
        Reassociate([0x1A] + Varint(|m.key|) + m.key, [0x22], Varint(|m.token|), m.token);
    }
  }

  lemma SmallTag(tag: nat)
    requires tag < 128
    ensures Varint(tag) == [tag]
  {}

  lemma SizedPayload(f: Field)
    requires f.kind == 2 && f.value.Blob?
    ensures PrintPayload(f) == Varint(|f.value.bytes|) + f.value.bytes
  {}

  lemma PrintSized(number: nat, bytes: Octets)
    requires number < 15
    ensures PrintFields([Field(number, 2, Blob(bytes))]) == [8 * number + 2] + Varint(|bytes|) + bytes
  {
    var f := Field(number, 2, Blob(bytes));
    hide Varint, PrintFields, PrintPayload;
    SmallTag(8 * number + 2);
    SizedPayload(f);
    PrintOne(f);
    Reassociate([], [8 * number + 2], Varint(|bytes|), bytes);
  }

  lemma Reassociate(a: Octets, b: Octets, c: Octets, d: Octets)
    ensures a + (b + c + d) == a + b + c + d
    ensures b + c + d == b + (c + d)
  {}

  lemma {:induction false} PrintConcat(a: seq<Field>, b: seq<Field>)
    ensures PrintFields(a + b) == PrintFields(a) + PrintFields(b)
  {
    if a == [] {
      assert a + b == b;
    } else {
      assert (a + b)[1..] == a[1..] + b;
      PrintConcat(a[1..], b);
    }
  }

  lemma PrintOne(f: Field)
    ensures PrintFields([f]) == PrintField(f)
  {
    assert PrintFields([f][1..]) == [];
  }

  /** The parser reads back result, account and material from what is printed. */
  lemma ExpectedParses(e: Event, change: Change)
    requires e.result < LIMIT && |MaterialBody(e.material)| < WORD
    ensures Fields(BodyWith(e, change)) == Ok(Expected(e, change))
  {
    PrintExpected(e, change);
    FieldsRoundTrip(Expected(e, change));
  }

  // ----------------------------------------------------------------- surgery

  /** The fixture's check that the account tag stands at octet 2 is not a check that the result
      takes one octet: it also passes when the second octet of a longer result is 0x11. */
  lemma AssertionHoldsIff(e: Event, account: Account, change: Change)
    requires Packet(e, account).Ok?
    ensures Rewrite(Packet(e, account).value, change).Ok? <==> e.result < 128 || e.result / 128 == 17
  {
    var body := Body(e, account);
    RewriteKeepsFrame(Header(e), body, change);
    if e.result >= 128 {
      assert Varint(e.result)[1] == Varint(e.result / 128)[0];
      assert body[2] == Varint(e.result)[1];
    }
  }

  /** For a one-octet result the surgery is the packet built with the change to begin with. */
  lemma SurgeryIsRebuilding(e: Event, account: Account, change: Change)
    requires Packet(e, account).Ok? && e.result < 128
    ensures Rewrite(Packet(e, account).value, change) == Frame(Header(e), BodyWith(e, change))
  {
    RewriteKeepsFrame(Header(e), Body(e, account), change);
    NarrowBody(e, account, change);
  }

  lemma NarrowBody(e: Event, account: Account, change: Change)
    requires e.result < 128
    ensures var body := Body(e, account);
            && |body| >= 11 && body[2] == 0x11
            && body[..2] + AccountField(change) + body[11..] == BodyWith(e, change)
  {
    var body := Body(e, account);
    var eight := LittleEndian(account, 8);
    assert body == [0x08, e.result, 0x11] + eight + MaterialBody(e.material);
    assert body[11..] == MaterialBody(e.material);
    assert [0x08] + Varint(e.result) == [0x08, e.result] == body[..2];
  }

  /** For a two-octet result that passes the check it is not, unless the accounts happen to
      consist of the tag octet where the two packets overlap. */
  lemma WideResultSurgery(e: Event, account: Account, change: Change)
    requires Packet(e, account).Ok? && e.result / 128 == 17
    ensures Rewrite(Packet(e, account).value, change) == Frame(Header(e), BodyWith(e, change))
       <==> LittleEndian(account, 8)[7] == 0x11 && (change.Some? ==> LittleEndian(change.value, 8) == seq(8, _ => 0x11))
  {
    assert Packet(e, account) == Frame(Header(e), Body(e, account)) && |Header(e)| < WORD && |Body(e, account)| < WORD;
    hide Body, BodyWith, Frame, Rewrite, MaterialBody, AccountField, LittleEndian, Header, Packet;
    var body := Body(e, account);
    var top := LittleEndian(account, 8)[7];
    RewriteKeepsFrame(Header(e), body, change);
    WideBody(e, account, change);
    BodyFits(e, account, change);
    var changed := body[..2] + AccountField(change) + body[11..];
    assert From(body, 11) == body[11..];
    FieldFits(change);
    FrameInjective(Header(e), changed, BodyWith(e, change));
    WideMatch([0x08, e.result % 128 + 128], change, top, MaterialBody(e.material));
  }

  lemma FieldFits(change: Change)
    ensures |AccountField(change)| <= 9
  {}

  lemma WideMatch(lead: Octets, change: Change, top: byte, material: Octets)
    ensures var f := AccountField(change);
            lead + (f + [top]) + material == lead + ([0x11] + f) + material
            <==> top == 0x11 && (change.Some? ==> LittleEndian(change.value, 8) == seq(8, _ => 0x11))
  {
    var f := AccountField(change);
    SameMiddle(lead, f + [top], [0x11] + f, material);
    Rotation(f, top);
    if change.Some? {
      var eight := LittleEndian(change.value, 8);
      assert forall i :: 0 <= i < 8 ==> f[i + 1] == eight[i];
    }
  }

  lemma WideVarint(result: nat)
    requires result / 128 == 17
    ensures Varint(result) == [result % 128 + 128, 0x11]
  {
    SmallTag(17);
  }

  lemma WideBody(e: Event, account: Account, change: Change)
    requires e.result / 128 == 17
    ensures var body := Body(e, account);
            var f := AccountField(change);
            var lead := [0x08, e.result % 128 + 128];
            && |body| >= 12 && body[2] == 0x11
            && BodyWith(e, change) == lead + ([0x11] + f) + MaterialBody(e.material)
            && body[..2] + f + body[11..] == lead + (f + [LittleEndian(account, 8)[7]]) + MaterialBody(e.material)
  {
    hide Varint, LittleEndian, MaterialBody;
    WideVarint(e.result);
    WideParts(e.result % 128 + 128, LittleEndian(account, 8), MaterialBody(e.material), AccountField(change));
  }

  /** The octets of such a body, and of what the surgery makes of it. */
  lemma WideParts(low: byte, eight: Octets, material: Octets, f: Octets)
    requires |eight| == 8
    ensures var body := [0x08] + [low, 0x11] + [0x11] + eight + material;
            && |body| >= 12 && body[2] == 0x11
            && body[..2] + f + body[11..] == [0x08, low] + (f + [eight[7]]) + material
            && [0x08] + [low, 0x11] + f + material == [0x08, low] + ([0x11] + f) + material
  {
    var body := [0x08] + [low, 0x11] + [0x11] + eight + material;
    assert body[..2] == [0x08, low] && body[11..] == [eight[7]] + material;
  }

  lemma FrameInjective(header: Octets, a: Octets, b: Octets)
    requires |header| < WORD && |a| < WORD && |b| < WORD
    ensures Frame(header, a) == Frame(header, b) <==> a == b
  {
    FrameLayout(header, a);
    FrameLayout(header, b);
  }

  lemma SameMiddle(a: Octets, b: Octets, c: Octets, d: Octets)
    requires |b| == |c|
    ensures a + b + d == a + c + d <==> b == c
  {
    if a + b + d == a + c + d {
      assert b == (a + b + d)[|a|..|a| + |b|] == (a + c + d)[|a|..|a| + |c|] == c;
    }
  }

  /** Moving the tag octet from front to back changes nothing only if every octet is the tag. */
  lemma Rotation(s: Octets, last: byte)
    ensures s + [last] == [0x11] + s <==> last == 0x11 && forall i :: 0 <= i < |s| ==> s[i] == 0x11
  {
    if s + [last] == [0x11] + s {
      Constant(s, last);
    }
  }

  lemma {:induction false} Constant(s: Octets, last: byte)
    requires s + [last] == [0x11] + s
    ensures last == 0x11 && forall i :: 0 <= i < |s| ==> s[i] == 0x11
  {
    if s == [] {
      assert (s + [last])[0] == ([0x11] + s)[0];
    } else {
      assert (s + [last])[0] == s[0] == 0x11;
      assert s[1..] + [last] == (s + [last])[1..] == s == [0x11] + s[1..];
      Constant(s[1..], last);
    }
  }

  /** So for a one-octet result the packet comes back framed, with the same header, and with
      the same fields except that the account is the new one or gone. */
  lemma SurgeryReplacesAccount(e: Event, account: Account, change: Change)
    requires Packet(e, account).Ok? && e.result < 128
    ensures var rewritten := Rewrite(Packet(e, account).value, change);
            && rewritten.Ok?
            && Unframe(Packet(e, account).value) == Some((Header(e), Body(e, account)))
            && Unframe(rewritten.value) == Some((Header(e), BodyWith(e, change)))
    ensures Fields(Body(e, account)) == Ok(Expected(e, Some(account)))
    ensures Fields(BodyWith(e, change)) == Ok(Expected(e, change))
  {
    SurgeryIsRebuilding(e, account, change);
    SameBody(e, account);
    BodyFits(e, account, change);
    UnframeInvertsFrame(Header(e), Body(e, account));
    UnframeInvertsFrame(Header(e), BodyWith(e, change));
    ExpectedParses(e, Some(account));
    ExpectedParses(e, change);
  }

  lemma SameBody(e: Event, account: Account)
    ensures Body(e, account) == BodyWith(e, Some(account))
  {}

  lemma BodyFits(e: Event, account: Account, change: Change)
    ensures |MaterialBody(e.material)| < |BodyWith(e, change)| <= |Body(e, account)|
  {}

  /** The header names the client and the message. */
  lemma HeaderSays(e: Event)
    requires e.client < LIMIT
    ensures Fields(Header(e)) == Ok([Field(1, 0, Number(e.client)), Field(2, 0, Number(4))])
  {
    var a, b := Field(1, 0, Number(e.client)), Field(2, 0, Number(4));
    SmallTag(8);
    SmallTag(16);
    SmallTag(4);
    PrintOne(a);
    PrintOne(b);
    PrintConcat([a], [b]);
    assert [a] + [b] == [a, b];
    HeaderBytes(Varint(e.client));
    hide Fields, PrintFields, Varint;
    FieldsRoundTrip([a, b]);
  }

  lemma HeaderBytes(client: Octets)
    ensures [8] + client + ([16] + [4]) == [0x08] + client + [0x10, 0x04]
  {}
}
