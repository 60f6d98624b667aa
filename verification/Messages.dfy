/** What the peers' packets and messages say to whoever reads them. */
module Messages {
  import opened Bytes
  import opened Crc32c
  import opened AuthenticatedCbc
  import opened WireFields
  import opened Peers
  import opened ControlChannel
  import DiscoveryPacket

  // ---------------------------------------------------------------- packets

  /** The header `<BBBBBhHI` read back field by field, and the payload behind it. */
  lemma WireReads(p: Packet)
    requires p.id < 65536 && p.stamp < 0x1_0000_0000
    ensures var raw := Wire(p);
            && raw[0] == p.kind && raw[1] == p.retry && raw[2] == p.remote && raw[3] == p.local && raw[4] == p.channel
            && U16(raw, 5) == p.fragment % 65536 && U16(raw, 7) == p.id
            && FromLittleEndian(raw[9..13]) == p.stamp && raw[13..] == p.body
  {
    var fragment, id, stamp := LittleEndian(p.fragment % 65536, 2), LittleEndian(p.id, 2), LittleEndian(p.stamp, 4);
    FieldWidths();
    LittleEndianRoundTrip(p.fragment % 65536, 2);
    LittleEndianRoundTrip(p.id, 2);
    LittleEndianRoundTrip(p.stamp, 4);
    hide LittleEndian, FromLittleEndian;
    var raw := Wire(p);
    assert raw[5..7] == fragment && raw[7..9] == id && raw[9..13] == stamp;
  }

  /** The reply to a connect of 17 octets: its own kind, the client's address octet, and the
      client's four octets from the ninth on. */
  lemma ConnectReply(c: Case, s: State, raw: Octets)
    requires |raw| == 17 && raw[0] == 1 && !s.connected
    ensures var t := Auth(c, s, raw);
            && t.ok && t.state == s.(connected := true, sent := t.state.sent)
            && |t.state.sent| == |s.sent| + 1 && t.state.sent[..|s.sent|] == s.sent
            && var wire := Wire(t.state.sent[|s.sent|]);
               && |wire| == 17 && wire[0] == 2 && wire[2] == 7 && wire[3] == raw[2] && wire[4] == 0
               && wire[13..] == raw[9..13]
  {
    hide LittleEndian;
  }

  // ------------------------------------------------------------ negotiation

  predicate AsksConfig(f: Field) {
    f.number == 1 && f.kind == 2
  }

  /** `v` is carried by the first field with number 1 and kind 2. */
  predicate FirstAt(fields: seq<Field>, k: nat, v: Octets) {
    && k < |fields| && AsksConfig(fields[k]) && fields[k].value == Blob(v)
    && forall j :: 0 <= j < k ==> !AsksConfig(fields[j])
  }

  /** What the parser returns: fields of kind 2 carry bytes. */
  predicate Blobs(fields: seq<Field>) {
    forall j :: 0 <= j < |fields| && fields[j].kind == 2 ==> fields[j].value.Blob?
  }

  lemma {:induction false} ParsedBlobs(raw: Octets, offset: nat)
    ensures FieldsFrom(raw, offset).Ok? ==> Blobs(FieldsFrom(raw, offset).value)
    decreases |raw| - offset
  {
    hide ReadVarint;
    if offset < |raw| && ReadField(raw, offset).Ok? {
      ParsedBlobs(raw, ReadField(raw, offset).value.1);
    }
  }

  lemma {:induction false} FirstFound(fields: seq<Field>, v: Octets)
    requires Blobs(fields)
    ensures FirstConfig(fields) == Some(v) <==> exists k: nat :: FirstAt(fields, k, v)
    decreases |fields|
  {
    if fields != [] {
      var rest := fields[1..];
      FirstFound(rest, v);
      if AsksConfig(fields[0]) {
        if fields[0].value == Blob(v) {
          assert FirstAt(fields, 0, v);
        }
      } else {
        if k: nat :| FirstAt(rest, k, v) {
          assert FirstAt(fields, k + 1, v);
        }
        if k: nat :| FirstAt(fields, k, v) {
          assert fields[0] == fields[0] && k > 0;
          assert FirstAt(rest, k - 1, v);
        }
      }
    }
  }

  /** A message agrees on `v` exactly when it decrypts under sequence number 0 to fields of which
      the first with number 1 and kind 2 holds `v`, and `v` is shorter than 128 bytes. */
  lemma NegotiatedIff(c: Case, data: Octets, v: Octets)
    requires |data| > 13
    ensures Negotiated(c, data) == Some(v)
       <==> exists m: Message, fields: seq<Field>, k: nat ::
              && Decrypted(c.suite, data[14..]) == Ok(m) && m.sequence == 0
              && Fields(m.body) == Ok(fields) && FirstAt(fields, k, v) && |v| < 128
  {
    hide Decrypted, Fields;
    var opened_ := Decrypted(c.suite, data[14..]);
    if opened_.Ok? && Fields(opened_.value.body).Ok? {
      var fields := Fields(opened_.value.body).value;
      assert Blobs(fields) by { FieldsBlobs(opened_.value.body); }
      FirstFound(fields, v);
    }
  }

  lemma FieldsBlobs(raw: Octets)
    ensures Fields(raw).Ok? ==> Blobs(Fields(raw).value)
  {
    ParsedBlobs(raw, 0);
  }

  /** So what a run agrees on is what its first message of type 4 says. */
  lemma {:induction false} AgreedFirst(c: Case, raws: seq<Octets>, i: nat, v: Octets)
    requires i < |raws| && Type(raws[i]) == Some(4) && forall j :: 0 <= j < i ==> Type(raws[j]) != Some(4)
    requires Negotiated(c, WithoutCrc(raws[i]).value) == Some(v)
    ensures Agreed(c, raws) == v
    decreases |raws|
  {
    hide Type, Negotiated, WithoutCrc;
    var n := |raws| - 1;
    if i < n {
      assert raws[..n][i] == raws[i] && Seen(raws[..n], 4);
      AgreedFirst(c, raws[..n], i, v);
    }
  }

  /** A packet of the control channel that decrypts to these fields under this sequence number. */
  predicate Says(c: Case, p: Packet, tag: byte, sequence: nat, fields: seq<Field>) {
    && p.kind == 5 && p.retry == 0 && p.remote == 7 && p.fragment == 0 && p.stamp == 1000000
    && p.channel == CONTROL && p.id == sequence + 2 && p.body != [] && p.body[0] == tag
    && Decrypted(c.suite, p.body[1..]).Ok?
    && Decrypted(c.suite, p.body[1..]).value.sequence == sequence
    && Fields(Decrypted(c.suite, p.body[1..]).value.body) == Ok(fields)
  }

  lemma SecretSays(c: Case, local: byte, tag: byte, sequence: Sequence, plain: Octets, fields: seq<Field>)
    requires Lawful(c.suite) && Fields(plain) == Ok(fields)
    ensures Says(c, Control(local, sequence + 2, Secret(c, tag, sequence, plain, false)), tag, sequence, fields)
  {
    hide Encrypted, Decrypted, Fields;
    EncryptedIsDecrypted(c.suite, Message(sequence, plain));
    var body := Secret(c, tag, sequence, plain, false);
    assert body[1..] == Encrypted(c.suite, Message(sequence, plain), false);
  }

  /** The answer to the configuration gives it back: one field with number 1 that holds what was
      agreed on. */
  lemma ConfigAnswered(c: Case, s: State, raw: Octets, v: Octets) returns (p: Packet)
    requires Lawful(c.suite) && !s.configSent && Type(raw) == Some(4)
    requires Negotiated(c, WithoutCrc(raw).value) == Some(v)
    ensures Negotiate(c, s, raw) == Outcome(Send(s, p).(configSent := true), true)
    ensures |raw| > 2 && p.local == raw[2] && Says(c, p, 4, 1 + Extra(c), [Field(1, 2, Blob(v))])
  {
    TypedIsControl(raw);
    OtherTypesIgnored(c, s, raw);
    assert |v| < 128;
    hide Auth, Negotiate, Negotiated, WithoutCrc, Type, Kind, Says, Secret, ConfigPlain, Fields;
    ConfigSays(v);
    ConfigSent(c, s, raw, v);
    p := Control(raw[2], 3 + Extra(c), Secret(c, 4, 1 + Extra(c), ConfigPlain(v), false));
    SecretSays(c, raw[2], 4, 1 + Extra(c), ConfigPlain(v), [Field(1, 2, Blob(v))]);
  }

  lemma ConfigSent(c: Case, s: State, raw: Octets, v: Octets)
    requires !s.configSent && Type(raw) == Some(4) && |raw| > 13 && Kind(raw) == 5 && |v| < 128
    requires WithoutCrc(raw).Ok? && |WithoutCrc(raw).value| > 13 && Negotiated(c, WithoutCrc(raw).value) == Some(v)
    requires Auth(c, s, raw) == Outcome(s, true)
    ensures Negotiate(c, s, raw) == Outcome(DoConfig(c, s, raw[2], v), true)
  {
    hide Auth, Negotiated, WithoutCrc, Type, Secret, ConfigPlain;
  }

  lemma OtherTypesIgnored(c: Case, s: State, raw: Octets)
    requires Type(raw) == Some(4)
    ensures Auth(c, s, raw) == Outcome(s, true)
  {
    hide WithoutCrc;
    TypedIsLong(raw);
  }

  lemma ConfigSays(v: Octets)
    requires |v| < 128
    ensures Fields(ConfigPlain(v)) == Ok([Field(1, 2, Blob(v))])
  {
    var f := Field(1, 2, Blob(v));
    DiscoveryPacket.PrintSized(1, v);
    DiscoveryPacket.SmallTag(|v|);
    assert [10] + [|v|] + v == ConfigPlain(v);
    hide Fields, PrintFields, Varint;
    FieldsRoundTrip([f]);
  }

  // ------------------------------------------------------ the fixed messages

  function Numbers(pairs: seq<(nat, nat)>): (fields: seq<Field>)
    ensures |fields| == |pairs|
    ensures forall i :: 0 <= i < |pairs| ==> fields[i] == Field(pairs[i].0, 0, Number(pairs[i].1))
  {
    seq(|pairs|, i requires 0 <= i < |pairs| => Field(pairs[i].0, 0, Number(pairs[i].1)))
  }

  /** A number field under a small tag, in front of others. */
  lemma PrintNumber(number: nat, value: nat, rest: seq<Field>)
    requires number < 16
    ensures PrintFields([Field(number, 0, Number(value))] + rest) == [8 * number] + Varint(value) + PrintFields(rest)
  {
    var f := Field(number, 0, Number(value));
    DiscoveryPacket.SmallTag(8 * number);
    DiscoveryPacket.PrintOne(f);
    DiscoveryPacket.PrintConcat([f], rest);
  }

  lemma NumbersPrintable(pairs: seq<(nat, nat)>)
    requires forall i :: 0 <= i < |pairs| ==> pairs[i].0 < 16 && pairs[i].1 < 65536
    ensures forall i :: 0 <= i < |pairs| ==> Printable(Numbers(pairs)[i])
  {}

  /** Printing a number field and then the others. */
  lemma PrintFirst(pairs: seq<(nat, nat)>)
    requires pairs != [] && pairs[0].0 < 16
    ensures PrintFields(Numbers(pairs)) == [8 * pairs[0].0] + Varint(pairs[0].1) + PrintFields(Numbers(pairs[1..]))
  {
    PrintNumber(pairs[0].0, pairs[0].1, Numbers(pairs[1..]));
    assert Numbers(pairs) == [Field(pairs[0].0, 0, Number(pairs[0].1))] + Numbers(pairs[1..]);
  }

  lemma PrintThree(a: (nat, nat), b: (nat, nat), c: (nat, nat))
    requires a.0 < 16 && b.0 < 16 && c.0 < 16
    ensures PrintFields(Numbers([a, b, c]))
         == [8 * a.0] + Varint(a.1) + ([8 * b.0] + Varint(b.1) + ([8 * c.0] + Varint(c.1)))
  {
    hide Varint, PrintFields;
    PrintFirst([a, b, c]);
    PrintFirst([b, c]);
    PrintFirst([c]);
    NothingPrinted();
    assert [a, b, c][1..] == [b, c] && [b, c][1..] == [c] && Numbers([c][1..]) == [];
    assert [8 * c.0] + Varint(c.1) + [] == [8 * c.0] + Varint(c.1);
  }

  lemma NothingPrinted()
    ensures PrintFields([]) == []
  {}

  /** Init: field 1 tells whether the case is reliable, 2 is 3 and 3 is 4. */
  lemma InitSays(c: Case)
    ensures Fields(InitPlain(c)) == Ok(Numbers([(1, One(c.reliable)), (2, 3), (3, 4)]))
  {
    var pairs := [(1, One(c.reliable)), (2, 3), (3, 4)];
    DiscoveryPacket.SmallTag(One(c.reliable));
    DiscoveryPacket.SmallTag(3);
    DiscoveryPacket.SmallTag(4);
    hide Fields, PrintFields, Varint, Numbers;
    PrintThree(pairs[0], pairs[1], pairs[2]);
    NumbersPrintable(pairs);
    assert [8] + [One(c.reliable)] + ([16] + [3] + ([24] + [4])) == InitPlain(c);
    FieldsRoundTrip(Numbers(pairs));
  }

  /** `StartVideo`: numbers 1, 2, 4 and 5. */
  lemma StartVideoSays()
    ensures Fields(START_VIDEO) == Ok(Numbers([(1, 3), (2, 4), (4, 128), (5, 72)]))
  {
    StartSays([(1, 3), (2, 4), (4, 128), (5, 72)], START_VIDEO, [0x80, 1], [72]);
  }

  /** `StartAudio`: among others the sampling rate, 48000. */
  lemma StartAudioSays()
    ensures Fields(START_AUDIO) == Ok(Numbers([(2, 3), (3, 3), (5, 48000), (6, 2)]))
  {
    StartSays([(2, 3), (3, 3), (5, 48000), (6, 2)], START_AUDIO, [0x80, 0xf7, 2], [2]);
  }

  lemma StartSays(pairs: seq<(nat, nat)>, raw: Octets, third: Octets, fourth: Octets)
    requires |pairs| == 4 && forall i :: 0 <= i < 4 ==> pairs[i].0 < 16 && pairs[i].1 < 65536
    requires pairs[0].1 < 128 && pairs[1].1 < 128 && Varint(pairs[2].1) == third && Varint(pairs[3].1) == fourth
    requires raw == [8 * pairs[0].0, pairs[0].1, 8 * pairs[1].0, pairs[1].1]
                    + ([8 * pairs[2].0] + third) + ([8 * pairs[3].0] + fourth)
    ensures Fields(raw) == Ok(Numbers(pairs))
  {
    DiscoveryPacket.SmallTag(pairs[0].1);
    DiscoveryPacket.SmallTag(pairs[1].1);
    hide Fields, PrintFields, Varint, Numbers;
    PrintFirst(pairs);
    PrintThree(pairs[1], pairs[2], pairs[3]);
    assert pairs[1..] == [pairs[1], pairs[2], pairs[3]];
    StartBytes(8 * pairs[0].0, pairs[0].1, 8 * pairs[1].0, pairs[1].1,
               [8 * pairs[2].0] + third, [8 * pairs[3].0] + fourth);
    NumbersPrintable(pairs);
    FieldsRoundTrip(Numbers(pairs));
  }

  lemma StartBytes(a: byte, b: byte, c: byte, d: byte, e: Octets, f: Octets)
    ensures [a] + [b] + ([c] + [d] + (e + f)) == [a, b, c, d] + e + f
  {}

  /** Every entry of the script from the init on can be read, and this is what it says: init,
      configuration and start, under consecutive sequence numbers but for the start of a case with a
      bad MAC. */
  lemma ScriptSays(c: Case, v: Octets)
    requires Lawful(c.suite) && c.response.Some? && |v| < 128
    ensures var script, n := Script(c, v), Extra(c);
            && script[0].body == c.server && script[1].body == c.response.value
            && (c.badMac ==> Decrypted(c.suite, script[2].body[1..]) == Raised)
            && EntrySays(c, script[2 + n], 3, n, Numbers([(1, One(c.reliable)), (2, 3), (3, 4)]))
            && EntrySays(c, script[3 + n], 4, 1 + n, [Field(1, 2, Blob(v))])
            && (c.audio ==> EntrySays(c, script[4 + n], 50, 2, Numbers([(2, 3), (3, 3), (5, 48000), (6, 2)])))
            && (!c.audio ==> EntrySays(c, script[4 + n], 52, 2, Numbers([(1, 3), (2, 4), (4, 128), (5, 72)])))
  {
    hide Decrypted, EntrySays, InitPlain, Script, Numbers, Secret;
    ScriptHead(c, v);
    InitEntry(c, v);
    StartEntry(c, v);
    ConfigEntry(c, v);
    BadMacSays(c);
  }

  lemma ScriptHead(c: Case, v: Octets)
    requires c.response.Some? && |v| < 128
    ensures var script := Script(c, v);
            && script[0].body == c.server && script[1].body == c.response.value
            && (c.badMac ==> script[2].body == Secret(c, 3, 0, InitPlain(c), true))
  {
    hide Secret, InitPlain, ConfigPlain, StartSecret;
  }

  lemma InitEntry(c: Case, v: Octets)
    requires Lawful(c.suite) && c.response.Some? && |v| < 128
    ensures EntrySays(c, Script(c, v)[2 + Extra(c)], 3, Extra(c), Numbers([(1, One(c.reliable)), (2, 3), (3, 4)]))
  {
    InitSays(c);
    hide Says, InitPlain, ConfigPlain, Fields, Encrypted, Secret, StartSecret, Numbers;
    SecretSays(c, 0, 3, Extra(c), InitPlain(c), Numbers([(1, One(c.reliable)), (2, 3), (3, 4)]));
  }

  lemma ConfigEntry(c: Case, v: Octets)
    requires Lawful(c.suite) && c.response.Some? && |v| < 128
    ensures EntrySays(c, Script(c, v)[3 + Extra(c)], 4, 1 + Extra(c), [Field(1, 2, Blob(v))])
  {
    ConfigSays(v);
    hide Says, InitPlain, ConfigPlain, Fields, Encrypted, Secret, StartSecret;
    SecretSays(c, 0, 4, 1 + Extra(c), ConfigPlain(v), [Field(1, 2, Blob(v))]);
  }

  lemma StartEntry(c: Case, v: Octets)
    requires Lawful(c.suite) && c.response.Some? && |v| < 128
    ensures var start := Script(c, v)[4 + Extra(c)];
            && (c.audio ==> EntrySays(c, start, 50, 2, Numbers([(2, 3), (3, 3), (5, 48000), (6, 2)])))
            && (!c.audio ==> EntrySays(c, start, 52, 2, Numbers([(1, 3), (2, 4), (4, 128), (5, 72)])))
  {
    StartVideoSays();
    StartAudioSays();
    hide Says, InitPlain, ConfigPlain, Fields, Encrypted, Secret, Numbers;
    if c.audio {
      SecretSays(c, 0, 50, 2, START_AUDIO, Numbers([(2, 3), (3, 3), (5, 48000), (6, 2)]));
    } else {
      SecretSays(c, 0, 52, 2, START_VIDEO, Numbers([(1, 3), (2, 4), (4, 128), (5, 72)]));
    }
  }

  predicate EntrySays(c: Case, e: Entry, tag: byte, sequence: nat, fields: seq<Field>) {
    Says(c, Control(0, e.id, e.body), tag, sequence, fields)
  }

  lemma BadMacSays(c: Case)
    requires Lawful(c.suite)
    ensures Decrypted(c.suite, Secret(c, 3, 0, InitPlain(c), true)[1..]) == Raised
  {
    hide InitPlain, Decrypted, Encrypted;
    BadMacRejected(c.suite, Message(0, InitPlain(c)));
    assert Secret(c, 3, 0, InitPlain(c), true)[1..] == Encrypted(c.suite, Message(0, InitPlain(c)), true);
  }

  /** The stop has an empty body under sequence number 3. */
  lemma StopSays(c: Case)
    requires Lawful(c.suite)
    ensures StopSecret(c)[0] == if c.audio then 51 else 53
    ensures Decrypted(c.suite, StopSecret(c)[1..]) == Ok(Message(3, []))
  {
    hide Decrypted, Encrypted;
    EncryptedIsDecrypted(c.suite, Message(3, []));
    assert StopSecret(c)[1..] == Encrypted(c.suite, Message(3, []), false);
  }
}
