/** The reactive peers of the process fixtures: authentication, negotiation and video, one
    subclass on top of the other. One datagram is one step; a failed assertion, index or
    unpacking inside a step ends the run. */
module Peers {
  import opened Bytes
  import opened Crc32c
  import opened AuthenticatedCbc
  import WireFields

  // ---------------------------------------------------------------- packets

  /** The thirteen header bytes `<BBBBBhHI` and the payload. */
  datatype Packet = Packet(
    kind: byte, retry: byte, remote: byte, local: byte, channel: byte, fragment: int, id: nat, stamp: nat, body: Octets)

  function Wire(p: Packet): (raw: Octets)
    ensures |raw| == 13 + |p.body| && raw[0] == p.kind
  {
    [p.kind, p.retry, p.remote, p.local, p.channel]
    + LittleEndian(p.fragment % 65536, 2) + LittleEndian(p.id, 2) + LittleEndian(p.stamp, 4) + p.body
  }

  function U16(raw: Octets, at: nat): nat
    requires at + 2 <= |raw|
  {
    FromLittleEndian(raw[at..at + 2])
  }

  function U32(raw: Octets, at: nat): nat
    requires at + 4 <= |raw|
  {
    FromLittleEndian(raw[at..at + 4])
  }

  function Two(low: int, high: int): int {
    low + 256 * high
  }

  lemma TwoOctets(raw: Octets, at: nat)
    requires at + 2 <= |raw|
    ensures U16(raw, at) == Two(raw[at], raw[at + 1])
  {
    var s := raw[at..at + 2];
    assert s[1..][1..] == [];
    assert FromLittleEndian(s[1..][1..]) == 0;
    assert FromLittleEndian(s[1..]) == s[1];
  }

  /** In front of every frame: `1` and `<HIHI`. */
  function FrameHead(fid: nat, stamp: nat): (head: Octets)
    ensures |head| == 13
  {
    [1] + LittleEndian(fid, 2) + LittleEndian(stamp, 4) + LittleEndian(0, 2) + LittleEndian(0, 4)
  }

  /** In front of a video frame: that and `<HBHH`. */
  function VideoHead(fid: nat, stamp: nat, sequence: nat, flags: byte): (head: Octets)
    ensures |head| == 20
  {
    FrameHead(fid, stamp) + LittleEndian(sequence, 2) + [flags] + LittleEndian(0, 2) + LittleEndian(0, 2)
  }

  /** A frame's id and time stamp, read back where they belong. */
  predicate FrameSays(body: Octets, fid: nat, stamp: nat) {
    && |body| >= 13 && body[0] == 1 && U16(body, 1) == fid && U32(body, 3) == stamp
    && U16(body, 7) == 0 && U32(body, 9) == 0
  }

  /** And a video frame's place in the sequence, its flags and its data. */
  predicate VideoSays(body: Octets, fid: nat, stamp: nat, sequence: nat, flags: byte, data: Octets) {
    && FrameSays(body, fid, stamp) && |body| >= 20
    && U16(body, 13) == sequence && body[15] == flags && U16(body, 16) == 0 && U16(body, 18) == 0
    && body[20..] == data
  }

  lemma FieldWidths()
    ensures Pow256(2) == 65536 && Pow256(4) == 0x1_0000_0000
  {}

  lemma FrameReads(fid: nat, stamp: nat, rest: Octets)
    requires fid < 65536 && stamp < 0x1_0000_0000
    ensures FrameSays(FrameHead(fid, stamp) + rest, fid, stamp)
    ensures (FrameHead(fid, stamp) + rest)[13..] == rest
  {
    var a, b, c, d := LittleEndian(fid, 2), LittleEndian(stamp, 4), LittleEndian(0, 2), LittleEndian(0, 4);
    FieldWidths();
    LittleEndianRoundTrip(fid, 2);
    LittleEndianRoundTrip(stamp, 4);
    LittleEndianRoundTrip(0, 2);
    LittleEndianRoundTrip(0, 4);
    hide LittleEndian, FromLittleEndian;
    var body := FrameHead(fid, stamp) + rest;
    assert body[1..3] == a && body[3..7] == b && body[7..9] == c && body[9..13] == d;
  }

  lemma VideoReads(fid: nat, stamp: nat, sequence: nat, flags: byte, data: Octets)
    requires fid < 65536 && stamp < 0x1_0000_0000 && sequence < 65536
    ensures VideoSays(VideoHead(fid, stamp, sequence, flags) + data, fid, stamp, sequence, flags, data)
  {
    hide LittleEndian, FromLittleEndian, FrameHead, FrameSays;
    var a, zero := LittleEndian(sequence, 2), LittleEndian(0, 2);
    var rest := a + [flags] + zero + zero + data;
    FrameReads(fid, stamp, rest);
    FieldWidths();
    LittleEndianRoundTrip(sequence, 2);
    LittleEndianRoundTrip(0, 2);
    var body := VideoHead(fid, stamp, sequence, flags) + data;
    assert body == FrameHead(fid, stamp) + rest;
    assert body[13..15] == a && body[16..18] == zero && body[18..20] == zero;
  }

  const CONTROL: byte := 1
  const CONNECTED: byte := 2

  /** A packet of the control channel. */
  function Control(local: byte, id: nat, body: Octets): Packet {
    Packet(5, 0, 7, local, CONTROL, 0, id, 1000000, body)
  }

  /** What leaves the socket. The connect reply is the one packet `send` would not seal, and it
      is sealed where it is built. */
  function Datagram(crc: bool, p: Packet): Octets {
    if crc && p.kind == CONNECTED then
      var flagged := Wire(p)[0 := SetFlag(p.kind)];
      flagged + Trailer(Checksum(flagged))
    else Seal(Wire(p), crc)
  }

  /** The receiver strips every datagram back to its packet, flag aside. */
  lemma DatagramStrips(crc: bool, p: Packet)
    requires p.kind < 128
    ensures WithoutCrc(Datagram(crc, p)) == Ok(if crc then Wire(p)[0 := p.kind + 128] else Wire(p))
  {
    if crc && p.kind == CONNECTED {
      var flagged := Wire(p)[0 := SetFlag(p.kind)];
      var wire := Datagram(crc, p);
      TrailerBits(Checksum(flagged));
      assert wire[..|wire| - 4] == flagged && wire[|wire| - 4..] == Trailer(Checksum(flagged));
    } else {
      StripSealed(Wire(p), crc);
    }
  }

  // ------------------------------------------------------------------ cases

  /** What every fixture case has. `audio` tells the peer that streams audio from the others. */
  datatype Case = Case(
    crc: bool, reliable: bool, badMac: bool, server: Octets, response: Option<Octets>, suite: Suite, audio: bool)

  function Extra(c: Case): nat {
    if c.badMac then 1 else 0
  }

  /** The fields of the peer objects, and the log of packets sent. */
  datatype State = State(
    connected: bool, handshake: bool, response: bool, initSent: bool, configSent: bool, started: bool, stopped: bool,
    sent: seq<Packet>)

  const INITIAL: State := State(false, false, false, false, false, false, false, [])

  function Send(s: State, p: Packet): State {
    s.(sent := s.sent + [p])
  }

  // ------------------------------------------------------- the media channel

  /** The media packets sent, in order. */
  function Media(sent: seq<Packet>): (media: seq<Packet>) {
    if sent == [] then []
    else
      var n := |sent| - 1;
      Media(sent[..n]) + if sent[n].channel == 3 then [sent[n]] else []
  }

  lemma SendMedia(s: State, p: Packet)
    ensures Media(Send(s, p).sent) == Media(s.sent) + if p.channel == 3 then [p] else []
  {
    assert Send(s, p).sent[..|s.sent|] == s.sent;
  }

  lemma {:induction false} StreamMedia(s: State, packets: seq<Packet>)
    requires forall i :: 0 <= i < |packets| ==> packets[i].channel == 3
    ensures Media(Stream(s, packets).sent) == Media(s.sent) + packets
    decreases |packets|
  {
    hide Media;
    if packets == [] {
      assert s.sent + packets == s.sent;
    } else {
      var n := |packets| - 1;
      StreamMedia(s, packets[..n]);
      SendMedia(Stream(s, packets[..n]), packets[n]);
      assert Send(Stream(s, packets[..n]), packets[n]) == Stream(s, packets);
      assert packets[..n] + [packets[n]] == packets;
    }
  }

  // ---------------------------------------------------------- what is sent

  function Secret(c: Case, tag: byte, sequence: Sequence, plain: Octets, bad: bool): Octets {
    [tag] + Encrypted(c.suite, Message(sequence, plain), bad)
  }

  function InitPlain(c: Case): Octets {
    [8, if c.reliable then 1 else 0, 0x10, 3, 0x18, 4]
  }

  /** The negotiated configuration, sent back under its length. */
  function ConfigPlain(negotiated: Octets): Octets
    requires |negotiated| < 128
  {
    [10, |negotiated|] + negotiated
  }

  const START_AUDIO: Octets := [0x10, 0x03, 0x18, 0x03, 0x28, 0x80, 0xf7, 0x02, 0x30, 0x02]
  const START_VIDEO: Octets := [0x08, 0x03, 0x10, 0x04, 0x20, 0x80, 0x01, 0x28, 0x48]

  function DoHandshake(c: Case, s: State, local: byte): State {
    Send(s, Control(local, 0, c.server)).(handshake := true)
  }

  function DoResponse(c: Case, s: State, local: byte): State
    requires c.response.Some?
  {
    Send(s, Control(local, 1, c.response.value)).(response := true)
  }

  function DoInit(c: Case, s: State, local: byte): State {
    var t := if c.badMac then Send(s, Control(local, 2, Secret(c, 3, 0, InitPlain(c), true))) else s;
    Send(t, Control(local, 2 + Extra(c), Secret(c, 3, Extra(c), InitPlain(c), false))).(initSent := true)
  }

  function DoConfig(c: Case, s: State, local: byte, negotiated: Octets): State
    requires |negotiated| < 128
  {
    var answer := Secret(c, 4, 1 + Extra(c), ConfigPlain(negotiated), false);
    Send(s, Control(local, 3 + Extra(c), answer)).(configSent := true)
  }

  function StartSecret(c: Case): Octets {
    if c.audio then Secret(c, 50, 2, START_AUDIO, false) else Secret(c, 52, 2, START_VIDEO, false)
  }

  function StopSecret(c: Case): Octets {
    Secret(c, if c.audio then 51 else 53, 3, [], false)
  }

  function DoStart(c: Case, s: State, local: byte): State {
    Send(s, Control(local, 4, StartSecret(c))).(started := true)
  }

  function DoStop(c: Case, s: State, local: byte): State {
    Send(s, Control(local, 5, StopSecret(c))).(stopped := true)
  }

  /** Packets of the media channel, after one another. */
  function Stream(s: State, packets: seq<Packet>): State {
    s.(sent := s.sent + packets)
  }

  // --------------------------------------------------------- authentication

  /** The state a call leaves, and whether it completed. */
  datatype Outcome = Outcome(state: State, ok: bool)

  function Kind(raw: Octets): nat
    requires raw != []
  {
    raw[0] % 128
  }

  /** The message type of a control datagram, unless reading it raises. */
  function Type(raw: Octets): Option<byte> {
    if raw == [] || Kind(raw) != 5 then None
    else
      match WithoutCrc(raw)
      case Raised => None
      case Ok(data) => if |data| > 13 then Some(data[13]) else None
  }

  lemma TypedIsLong(raw: Octets)
    ensures Type(raw).Some? ==> |raw| > 13
  {}

  /** `auth.Peer.__call__` */
  function Auth(c: Case, s: State, raw: Octets): Outcome {
    if raw == [] then Outcome(s, false)
    else if raw[0] == 1 && |raw| == 17 && !s.connected then
      Outcome(Send(s, Packet(CONNECTED, 0, 7, raw[2], 0, 0, 0, 1000000, raw[9..13])).(connected := true), true)
    else if Kind(raw) == 5 then
      match Type(raw)
      case None => Outcome(s, false)
      case Some(t) =>
        TypedIsLong(raw);
        if t == 6 && !s.handshake then Outcome(DoHandshake(c, s, raw[2]), true)
        else if t == 1 && c.response.Some? && !s.response then Outcome(DoResponse(c, s, raw[2]), true)
        else Outcome(s, true)
    else Outcome(s, true)
  }

  lemma AuthOkNonempty(c: Case, s: State, raw: Octets)
    ensures Auth(c, s, raw).ok ==> raw != [] && (Kind(raw) == 5 ==> Type(raw).Some?)
  {}

  // ------------------------------------------------------------ negotiation

  /** `next(value for number, kind, value in fields if number == 1 and kind == 2)` */
  function FirstConfig(fields: seq<WireFields.Field>): Option<Octets> {
    if fields == [] then None
    else if fields[0].number == 1 && fields[0].kind == 2 && fields[0].value.Blob? then Some(fields[0].value.bytes)
    else FirstConfig(fields[1..])
  }

  /** What the client's first encrypted message asks for, if it is one. */
  function Negotiated(c: Case, data: Octets): (value: Option<Octets>)
    requires |data| > 13
    ensures value.Some? ==> |value.value| < 128
  {
    match Decrypted(c.suite, data[14..])
    case Raised => None
    case Ok(m) =>
      if m.sequence != 0 then None
      else
        match WireFields.Fields(m.body)
        case Raised => None
        case Ok(fields) =>
          match FirstConfig(fields)
          case None => None
          case Some(value) => if |value| < 128 then Some(value) else None
  }

  /** `neg.Peer.__call__` */
  function Negotiate(c: Case, s: State, raw: Octets): Outcome {
    var auth := Auth(c, s, raw);
    if !auth.ok || Kind(raw) != 5 then auth
    else
      TypedIsLong(raw);
      var t := Type(raw).value;
      if t == 1 && auth.state.response && !auth.state.initSent then Outcome(DoInit(c, auth.state, raw[2]), true)
      else if t == 4 && !auth.state.configSent then
        match Negotiated(c, WithoutCrc(raw).value)
        case None => Outcome(auth.state, false)
        case Some(value) => Outcome(DoConfig(c, auth.state, raw[2], value), true)
      else auth
  }

  lemma NegotiateOkNonempty(c: Case, s: State, raw: Octets)
    ensures Negotiate(c, s, raw).ok ==> raw != [] && (Kind(raw) == 5 ==> Type(raw).Some?)
  {
    AuthOkNonempty(c, s, raw);
  }

  /** Neither authentication nor negotiation touches the media channel, the start or the stop. */
  predicate Untouched(s: State, t: State) {
    Media(t.sent) == Media(s.sent) && t.started == s.started && t.stopped == s.stopped
  }

  lemma InitUntouched(c: Case, s: State, local: byte)
    ensures Untouched(s, DoInit(c, s, local))
  {
    hide Secret, InitPlain, Media;
    var t := if c.badMac then Send(s, Control(local, 2, Secret(c, 3, 0, InitPlain(c), true))) else s;
    if c.badMac {
      SendMedia(s, Control(local, 2, Secret(c, 3, 0, InitPlain(c), true)));
    }
    SendMedia(t, Control(local, 2 + Extra(c), Secret(c, 3, Extra(c), InitPlain(c), false)));
  }

  lemma ConfigUntouched(c: Case, s: State, local: byte, negotiated: Octets)
    requires |negotiated| < 128
    ensures Untouched(s, DoConfig(c, s, local, negotiated))
  {
    hide Secret, ConfigPlain, Media;
    SendMedia(s, Control(local, 3 + Extra(c), Secret(c, 4, 1 + Extra(c), ConfigPlain(negotiated), false)));
  }

  lemma ControlUntouched(s: State, p: Packet)
    requires p.channel != 3
    ensures Untouched(s, Send(s, p))
  {
    hide Media;
    SendMedia(s, p);
  }

  lemma AuthUntouched(c: Case, s: State, raw: Octets)
    ensures Untouched(s, Auth(c, s, raw).state)
  {
    hide Media, WithoutCrc, Send;
    if raw != [] && raw[0] == 1 && |raw| == 17 && !s.connected {
      hide Type;
      ControlUntouched(s, Packet(CONNECTED, 0, 7, raw[2], 0, 0, 0, 1000000, raw[9..13]));
    } else if Type(raw).Some? {
      TypedIsLong(raw);
      hide Type;
      ControlUntouched(s, Control(raw[2], 0, c.server));
      if c.response.Some? {
        ControlUntouched(s, Control(raw[2], 1, c.response.value));
      }
    }
  }

  lemma NegotiateUntouched(c: Case, s: State, raw: Octets)
    ensures Untouched(s, Negotiate(c, s, raw).state)
  {
    hide Auth, Negotiated, WithoutCrc, DoInit, DoConfig, Media;
    AuthUntouched(c, s, raw);
    var auth := Auth(c, s, raw);
    AuthOkNonempty(c, s, raw);
    if auth.ok && Kind(raw) == 5 {
      TypedIsLong(raw);
      InitUntouched(c, auth.state, raw[2]);
      var value := Negotiated(c, WithoutCrc(raw).value);
      if value.Some? {
        ConfigUntouched(c, auth.state, raw[2], value.value);
      }
    }
  }

  /** The client's request to start streaming, as the subclasses with barriers test for it. */
  predicate Starts(s: State, data: Octets)
    requires data != []
  {
    data[0] % 128 == 5 && |data| > 13 && data[4] == 1 && data[13] == 5 && !s.started
  }

  /** What an unsealed datagram keeps. */
  lemma StripKeepsKind(raw: Octets)
    ensures WithoutCrc(raw).Ok? && WithoutCrc(raw).value != [] ==> raw != [] && Kind(raw) == Kind(WithoutCrc(raw).value)
    ensures WithoutCrc(raw).Ok? ==> |WithoutCrc(raw).value| <= |raw|
    ensures WithoutCrc(raw).Ok? && |WithoutCrc(raw).value| > 13 && Kind(raw) == 5 ==>
              Type(raw) == Some(WithoutCrc(raw).value[13])
  {}

  // ------------------------------------------------------------------ peers

  /** The fields of `auth.Peer` and `neg.Peer`, and their calls. */
  class Peer {
    const c: Case
    var connected: bool
    var handshake: bool
    var response: bool
    var initSent: bool
    var configSent: bool
    var started: bool
    var stopped: bool
    var sent: seq<Packet>

    function Now(): State
      reads this
    {
      State(connected, handshake, response, initSent, configSent, started, stopped, sent)
    }

    constructor (c: Case)
      ensures this.c == c && Now() == INITIAL
    {
      this.c := c;
      connected, handshake, response, initSent, configSent := false, false, false, false, false;
      started, stopped, sent := false, false, [];
    }

    method Transmit(p: Packet)
      modifies this`sent
      ensures sent == old(sent) + [p]
    {
      sent := sent + [p];
    }

    /** `StartVideo` or `StartAudio`, once. */
    method SendStart(local: byte)
      modifies this
      ensures Now() == DoStart(c, old(Now()), local)
    {
      started := true;
      Transmit(Control(local, 4, StartSecret(c)));
    }

    method SendStop(local: byte)
      modifies this
      ensures Now() == DoStop(c, old(Now()), local)
    {
      stopped := true;
      Transmit(Control(local, 5, StopSecret(c)));
    }

    method CallAuth(raw: Octets) returns (ok: bool)
      modifies this
      ensures Outcome(Now(), ok) == Auth(c, old(Now()), raw)
    {
      if raw == [] {
        return false;
      }
      if raw[0] == 1 && |raw| == 17 && !connected {
        Transmit(Packet(CONNECTED, 0, 7, raw[2], 0, 0, 0, 1000000, raw[9..13]));
        connected := true;
      } else if raw[0] % 128 == 5 {
        var data := StripCrc(raw);
        if data.Raised? || |data.value| <= 13 {
          return false;
        }
        TypedIsLong(raw);
        if data.value[13] == 6 && !handshake {
          Transmit(Control(raw[2], 0, c.server));
          handshake := true;
        } else if data.value[13] == 1 && c.response.Some? && !response {
          Transmit(Control(raw[2], 1, c.response.value));
          response := true;
        }
      }
      ok := true;
    }

    method CallNegotiate(raw: Octets) returns (ok: bool)
      modifies this
      ensures Outcome(Now(), ok) == Negotiate(c, old(Now()), raw)
    {
      hide Secret, Negotiated, WithoutCrc, Auth, InitPlain;
      ok := CallAuth(raw);
      AuthOkNonempty(c, old(Now()), raw);
      if !ok || raw[0] % 128 != 5 {
        return;
      }
      TypedIsLong(raw);
      var data := StripCrc(raw);
      var t := data.value[13];
      if t == 1 && response && !initSent {
        initSent := true;
        if c.badMac {
          Transmit(Control(raw[2], 2, Secret(c, 3, 0, InitPlain(c), true)));
        }
        Transmit(Control(raw[2], 2 + Extra(c), Secret(c, 3, Extra(c), InitPlain(c), false)));
      } else if t == 4 && !configSent {
        var negotiated := Negotiated(c, data.value);
        if negotiated == None {
          return false;
        }
        var answer := Secret(c, 4, 1 + Extra(c), ConfigPlain(negotiated.value), false);
        Transmit(Control(raw[2], 3 + Extra(c), answer));
        configSent := true;
      }
    }
  }
}
