/** `media.Peer`: one body or a set of FEC packets on start, a stop on request or acknowledgement. */
module VideoPeer {
  import opened Bytes
  import opened Crc32c
  import opened AuthenticatedCbc
  import opened Peers
  import opened ControlChannel
  import WireFields

  /** `wires` holds the FEC packets when there are any, `video` the one body otherwise, and `order`
      the order in which they are sent. */
  datatype VideoCase = VideoCase(
    common: Case, sourceDecode: bool, wires: Option<seq<Packet>>, video: Octets, order: seq<nat>)

  predicate ValidCase(c: VideoCase) {
    && (forall i :: 0 <= i < |c.order| ==> c.order[i] < if c.wires.Some? then |c.wires.value| else 2)
    && (c.wires.Some? ==> forall i :: 0 <= i < |c.wires.value| ==> c.wires.value[i].channel == 3)
  }

  function VideoPacket(c: VideoCase, local: byte, i: nat): Packet
    requires i < if c.wires.Some? then |c.wires.value| else 2
  {
    if c.wires.Some? then c.wires.value[i].(remote := 7, local := local, stamp := 1000000)
    else
      var kind: byte := if c.common.reliable then (if i == 0 then 5 else 6) else (if i == 0 then 3 else 4);
      Packet(kind, 0, 7, local, 3, if i == 0 then 1 else 0, i, 1000000,
             if i == 0 then WireFields.Slice(c.video, 0, 1200)
             else if |c.video| > 1200 then c.video[1200..] else [])
  }

  function VideoPackets(c: VideoCase, local: byte, n: nat): (packets: seq<Packet>)
    requires ValidCase(c) && n <= |c.order|
    ensures |packets| == n && forall i :: 0 <= i < n ==> packets[i] == VideoPacket(c, local, c.order[i])
    ensures forall i :: 0 <= i < |packets| ==> packets[i].channel == 3
  {
    if n == 0 then [] else VideoPackets(c, local, n - 1) + [VideoPacket(c, local, c.order[n - 1])]
  }

  /** Whether the client acknowledged the start, and whether finding out raises. */
  function Acknowledged(raw: Octets): Result<bool>
    requires raw != []
  {
    if Kind(raw) != 7 then Ok(false)
    else if |raw| <= 4 then Raised
    else if raw[4] != 1 then Ok(false)
    else if |raw| < 9 then Raised
    else Ok(U16(raw, 7) >= 4)
  }

  /** The stop on acknowledgement, for cases without a decoder. */
  function StopEarly(c: VideoCase, s: State, raw: Octets): Outcome
    requires raw != []
  {
    if c.sourceDecode then Outcome(s, true)
    else
      match Acknowledged(raw)
      case Raised => Outcome(s, false)
      case Ok(acknowledged) => Outcome(if acknowledged && !s.stopped then DoStop(c.common, s, raw[2]) else s, true)
  }

  /** `media.Peer.__call__` */
  function React(c: VideoCase, s: State, raw: Octets): Outcome
    requires ValidCase(c)
  {
    var negotiated := Negotiate(c.common, s, raw);
    if !negotiated.ok then negotiated
    else
      var early := StopEarly(c, negotiated.state, raw);
      if !early.ok || Kind(raw) != 5 then early
      else
        TypedIsLong(raw);
        var t := Type(raw).value;
        if t == 5 && !early.state.started then
          Outcome(Stream(DoStart(c.common, early.state, raw[2]), VideoPackets(c, raw[2], |c.order|)), true)
        else if t == 80 && !early.state.stopped then Outcome(DoStop(c.common, early.state, raw[2]), true)
        else early
  }

  /** The fields are those of the inherited object. */
  class Peer {
    const c: VideoCase
    const base: Peers.Peer

    constructor (c: VideoCase)
      ensures this.c == c && base.c == c.common && base.Now() == INITIAL && fresh(base)
    {
      this.c := c;
      base := new Peers.Peer(c.common);
    }

    method SendVideo(local: byte)
      requires ValidCase(c)
      modifies base
      ensures base.Now() == Stream(old(base.Now()), VideoPackets(c, local, |c.order|))
    {
      hide VideoPacket;
      for n := 0 to |c.order|
        invariant base.Now() == Stream(old(base.Now()), VideoPackets(c, local, n))
      {
        base.Transmit(VideoPacket(c, local, c.order[n]));
      }
    }

    /** Whether the stop on acknowledgement could be decided. */
    method StopOnAcknowledgement(raw: Octets) returns (ok: bool)
      requires base.c == c.common && raw != []
      modifies base
      ensures Outcome(base.Now(), ok) == StopEarly(c, old(base.Now()), raw)
    {
      hide StopSecret;
      if !c.sourceDecode {
        var acknowledged := Acknowledged(raw);
        if acknowledged.Raised? {
          return false;
        }
        if acknowledged.value && !base.stopped {
          base.SendStop(raw[2]);
        }
      }
      ok := true;
    }

    method Call(raw: Octets) returns (ok: bool)
      requires ValidCase(c) && base.c == c.common
      modifies base
      ensures Outcome(base.Now(), ok) == React(c, old(base.Now()), raw)
    {
      hide WithoutCrc, Negotiate, StopEarly, VideoPackets, StartSecret, StopSecret;
      ok := base.CallNegotiate(raw);
      NegotiateOkNonempty(c.common, old(base.Now()), raw);
      if !ok {
        return;
      }
      ok := StopOnAcknowledgement(raw);
      if !ok || raw[0] % 128 != 5 {
        return;
      }
      TypedIsLong(raw);
      var data := StripCrc(raw);
      var t := data.value[13];
      if t == 5 && !base.started {
        base.SendStart(raw[2]);
        SendVideo(raw[2]);
      } else if t == 80 && !base.stopped {
        base.SendStop(raw[2]);
      }
    }

    /** The serving loop: datagrams up to the first exception. */
    method Serve(raws: seq<Octets>) returns (ok: bool)
      requires base.Now() == INITIAL && ValidCase(c) && base.c == c.common
      modifies base
      ensures Outcome(base.Now(), ok) == Served(c, raws)
    {
      hide React;
      ok := true;
      for n := 0 to |raws|
        invariant ok && Outcome(base.Now(), ok) == Served(c, raws[..n])
      {
        assert raws[..n + 1][..n] == raws[..n];
        ok := Call(raws[n]);
        if !ok {
          BrokenOff(c, raws, n + 1);
          return;
        }
      }
      assert raws[..|raws|] == raws;
    }
  }

  // ---------------------------------------------------------------- every run

  lemma StopEarlySound(c: VideoCase, s: State, raws: seq<Octets>, raw: Octets)
    requires Sound(c.common, s, raws, true) && raw != []
    ensures Sound(c.common, StopEarly(c, s, raw).state, raws, StopEarly(c, s, raw).ok)
  {
    hide Sound, DoStop;
    SoundAnyway(c.common, s, raws);
    if |raw| > 2 && !s.stopped {
      StopSound(c.common, s, raws, raw[2]);
    }
  }

  lemma ReactSound(c: VideoCase, s: State, raws: seq<Octets>, raw: Octets)
    requires ValidCase(c) && Sound(c.common, s, raws, true)
    ensures Sound(c.common, React(c, s, raw).state, raws + [raw], React(c, s, raw).ok)
  {
    hide Sound, Negotiate, StopEarly, DoStart, DoStop;
    NegotiateSound(c.common, s, raws, raw);
    NegotiateOkNonempty(c.common, s, raw);
    var negotiated := Negotiate(c.common, s, raw);
    if negotiated.ok {
      StopEarlySound(c, negotiated.state, raws + [raw], raw);
      var early := StopEarly(c, negotiated.state, raw);
      if early.ok && Kind(raw) == 5 {
        TypedIsLong(raw);
        if !early.state.stopped {
          StopSound(c.common, early.state, raws + [raw], raw[2]);
        }
        if Type(raw) == Some(5) && !early.state.started {
          assert (raws + [raw])[|raws + [raw]| - 1] == raw;
          StartSound(c.common, early.state, raws + [raw], raw[2]);
          var started := DoStart(c.common, early.state, raw[2]);
          StreamSound(c.common, started, raws + [raw], VideoPackets(c, raw[2], |c.order|));
        }
      }
    }
  }

  /** Any run of datagrams, up to the first exception. */
  function Served(c: VideoCase, raws: seq<Octets>): Outcome
    requires ValidCase(c)
  {
    if raws == [] then Outcome(INITIAL, true)
    else
      var n := |raws| - 1;
      var before := Served(c, raws[..n]);
      if before.ok then React(c, before.state, raws[n]) else before
  }

  lemma {:induction false} BrokenOff(c: VideoCase, raws: seq<Octets>, n: nat)
    requires ValidCase(c) && n <= |raws| && !Served(c, raws[..n]).ok
    ensures Served(c, raws) == Served(c, raws[..n])
    decreases |raws|
  {
    hide React;
    if n < |raws| {
      var before := raws[..|raws| - 1];
      assert before[..n] == raws[..n];
      BrokenOff(c, before, n);
    } else {
      assert raws[..n] == raws;
    }
  }

  lemma {:induction false} EveryRunSound(c: VideoCase, raws: seq<Octets>)
    requires ValidCase(c)
    ensures Sound(c.common, Served(c, raws).state, raws, Served(c, raws).ok)
    decreases |raws|
  {
    hide Sound, React;
    if raws == [] {
      InitialSound(c.common);
    } else {
      var n := |raws| - 1;
      EveryRunSound(c, raws[..n]);
      assert raws[..n] + [raws[n]] == raws;
      if Served(c, raws[..n]).ok {
        ReactSound(c, Served(c, raws[..n]).state, raws[..n], raws[n]);
      } else {
        SoundExtends(c.common, Served(c, raws[..n]).state, raws[..n], raws[n]);
      }
    }
  }

  // -------------------------------------------------------- the media channel

  /** On every run the media channel is silent until the start and then carries the case's packets,
      once, in the case's order. */
  lemma {:induction false} EveryRunMedia(c: VideoCase, raws: seq<Octets>) returns (local: byte)
    requires ValidCase(c)
    ensures var s := Served(c, raws).state;
            Media(s.sent) == if s.started then VideoPackets(c, local, |c.order|) else []
    decreases |raws|
  {
    hide React;
    local := 0;
    if raws != [] {
      var n := |raws| - 1;
      local := EveryRunMedia(c, raws[..n]);
      var before := Served(c, raws[..n]);
      if before.ok {
        local := ReactMedia(c, before.state, raws[n], local);
      }
    }
  }

  lemma ReactMedia(c: VideoCase, s: State, raw: Octets, before: byte) returns (local: byte)
    requires ValidCase(c)
    requires Media(s.sent) == if s.started then VideoPackets(c, before, |c.order|) else []
    ensures var t := React(c, s, raw).state;
            Media(t.sent) == if t.started then VideoPackets(c, local, |c.order|) else []
  {
    hide Media, Negotiate, VideoPackets, StopEarly, StartSecret, StopSecret;
    NegotiateUntouched(c.common, s, raw);
    NegotiateOkNonempty(c.common, s, raw);
    local := before;
    var negotiated := Negotiate(c.common, s, raw);
    if negotiated.ok {
      StopEarlyMedia(c, negotiated.state, raw);
      var early := StopEarly(c, negotiated.state, raw);
      if early.ok && Kind(raw) == 5 {
        TypedIsLong(raw);
        SendMedia(early.state, Control(raw[2], 5, StopSecret(c.common)));
        if Type(raw) == Some(5) && !early.state.started {
          local := raw[2];
          SendMedia(early.state, Control(raw[2], 4, StartSecret(c.common)));
          StreamMedia(DoStart(c.common, early.state, raw[2]), VideoPackets(c, raw[2], |c.order|));
        }
      }
    }
  }

  lemma StopEarlyMedia(c: VideoCase, s: State, raw: Octets)
    requires raw != []
    ensures Media(StopEarly(c, s, raw).state.sent) == Media(s.sent) && StopEarly(c, s, raw).state.started == s.started
  {
    hide Media, StopSecret;
    if |raw| > 2 {
      SendMedia(s, Control(raw[2], 5, StopSecret(c.common)));
    }
  }

  /** The two plain packets, of 1200 bytes at most the first, are the body in two pieces; a FEC packet
      is the one given, readdressed and with its time stamp. */
  lemma PacketsSay(c: VideoCase, local: byte, i: nat)
    requires i < if c.wires.Some? then |c.wires.value| else 2
    ensures c.wires.None? ==>
              var head, tail := VideoPacket(c, local, 0), VideoPacket(c, local, 1);
              && head.body + tail.body == c.video && |head.body| <= 1200
              && (|c.video| >= 1200 ==> |head.body| == 1200)
              && head.remote == 7 && head.local == local && tail.remote == 7 && tail.local == local
              && head.id == 0 && tail.id == 1 && head.stamp == 1000000 && tail.stamp == 1000000
              && head.fragment == 1 && tail.fragment == 0
              && head.kind == (if c.common.reliable then 5 else 3) && tail.kind == head.kind + 1
    ensures c.wires.Some? ==>
              var p, given := VideoPacket(c, local, i), c.wires.value[i];
              && p.remote == 7 && p.local == local && p.stamp == 1000000
              && p == given.(remote := p.remote, local := p.local, stamp := p.stamp)
  {
    assert |c.video| > 1200 ==> c.video[..1200] + c.video[1200..] == c.video;
  }

  /** The acknowledgement by its octets: kind 7 on channel 1, and packet 4 or later at place 7. */
  lemma AcknowledgedByOctets(raw: Octets)
    requires raw != []
    ensures Acknowledged(raw) == Ok(true)
       <==> |raw| >= 9 && raw[0] % 128 == 7 && raw[4] == 1 && Two(raw[7], raw[8]) >= 4
  {
    if |raw| >= 9 {
      TwoOctets(raw, 7);
    }
    hide FromLittleEndian;
  }

  /** A call that completes has answered a request to start or to stop, and an acknowledgement in a
      case without a decoder. */
  lemma CallServes(c: VideoCase, s: State, raw: Octets)
    requires ValidCase(c)
    ensures var r := React(c, s, raw);
            && (s.started ==> r.state.started) && (s.stopped ==> r.state.stopped)
            && (r.ok && Type(raw) == Some(5) ==> r.state.started)
            && (r.ok && Type(raw) == Some(80) ==> r.state.stopped)
            && (r.ok && !c.sourceDecode && Acknowledged(raw) == Ok(true) ==> r.state.stopped)
  {
    TypedIsControl(raw);
    NegotiateUntouched(c.common, s, raw);
    NegotiateOkNonempty(c.common, s, raw);
    hide Type, Negotiate, VideoPackets, StartSecret, StopSecret, Acknowledged;
  }

  // ------------------------------------------------------ the repeated number

  /** An unsealed control datagram of the client. */
  function FromClient(message: Octets): Octets {
    [5, 0, 0, 7, 1, 0, 0, 0, 0, 0, 0, 0, 0] + message
  }

  /** The client's four messages, its configuration an empty one. */
  function Session(suite: Suite): seq<Octets> {
    [FromClient([6]), FromClient([1]), FromClient([4] + Encrypted(suite, Message(0, [10, 0]), false)), FromClient([5])]
  }

  lemma ClientType(message: Octets)
    requires message != []
    ensures Type(FromClient(message)) == Some(message[0])
    ensures WithoutCrc(FromClient(message)) == Ok(FromClient(message))
  {}

  lemma EmptyConfig(c: VideoCase)
    requires Lawful(c.common.suite)
    ensures Negotiated(c.common, FromClient([4] + Encrypted(c.common.suite, Message(0, [10, 0]), false))) == Some([])
  {
    var m := Message(0, [10, 0]);
    var data := FromClient([4] + Encrypted(c.common.suite, m, false));
    EncryptedIsDecrypted(c.common.suite, m);
    assert data[14..] == Encrypted(c.common.suite, m, false);
    ClientType([4] + Encrypted(c.common.suite, m, false));
    hide FromClient, Encrypted, Decrypted, WireFields.Fields, Type, WithoutCrc;
    EmptyField();
    var field := WireFields.Field(1, 2, WireFields.Blob([]));
    assert FirstConfig([field]) == Some([]);
  }

  lemma EmptyField()
    ensures WireFields.Fields([10, 0]) == Ok([WireFields.Field(1, 2, WireFields.Blob([]))])
  {
    var field := WireFields.Field(1, 2, WireFields.Blob([]));
    assert WireFields.PrintFields([field]) == [10, 0] by {
      assert WireFields.PrintField(field) == [10, 0];
      assert [field][1..] == [];
    }
    hide WireFields.Fields, WireFields.PrintFields;
    WireFields.FieldsRoundTrip([field]);
  }

  /** An ordinary session in a case with a bad MAC: the configuration and the start of the video go
      out under the same id. */
  lemma BadMacRepeats(c: VideoCase)
    requires ValidCase(c) && c.common.response.Some? && Lawful(c.common.suite) && c.common.badMac
    ensures FirstsInOrder(Session(c.common.suite)) && Served(c, Session(c.common.suite)).ok
    ensures !EachOnce(Served(c, Session(c.common.suite)).state.sent)
  {
    hide React, Encrypted, FromClient, Type, Accounted, OnScript, Served;
    SessionRuns(c);
    var raws := Session(c.common.suite);
    EveryRunSound(c, raws);
    SoundMeans(c.common, Served(c, raws).state, raws, true);
    ClientType([4] + Encrypted(c.common.suite, Message(0, [10, 0]), false));
    assert Type(raws[2]) == Some(4);
  }

  lemma ClientCompletes(c: VideoCase, s: State, message: Octets)
    requires ValidCase(c) && message != []
    requires message[0] == 4 ==> Negotiated(c.common, FromClient(message)).Some?
    ensures React(c, s, FromClient(message)).ok
    ensures message[0] == 5 ==> React(c, s, FromClient(message)).state.started
  {
    hide Secret, InitPlain, VideoPackets, Negotiated, Type, WithoutCrc;
    ClientType(message);
    var raw := FromClient(message);
    assert raw[0] == 5 && Kind(raw) == 5 && raw[13] == message[0];
    hide FromClient;
    assert Auth(c.common, s, raw).ok;
    hide Auth;
    assert Negotiate(c.common, s, raw).ok;
    hide Negotiate;
    assert StopEarly(c, Negotiate(c.common, s, raw).state, raw).ok;
  }

  lemma SessionRuns(c: VideoCase)
    requires ValidCase(c) && c.common.response.Some? && Lawful(c.common.suite)
    ensures FirstsInOrder(Session(c.common.suite)) && Served(c, Session(c.common.suite)).ok
    ensures Served(c, Session(c.common.suite)).state.started
  {
    hide React, Encrypted, FromClient, Type, WithoutCrc, Negotiated;
    var config: Octets := [4] + Encrypted(c.common.suite, Message(0, [10, 0]), false);
    var raws := Session(c.common.suite);
    ClientType([6]);
    ClientType([1]);
    ClientType(config);
    ClientType([5]);
    EmptyConfig(c);
    assert raws[..1][..0] == raws[..0];
    assert raws[..2][..1] == raws[..1] && raws[..3][..2] == raws[..2];
    assert Seen(raws[..1], 6) by { assert raws[..1][0] == raws[0]; }
    assert Seen(raws[..2], 1) by { assert raws[..2][1] == raws[1]; }
    assert Seen(raws[..3], 4) by { assert raws[..3][2] == raws[2]; }
    var zero := Served(c, raws[..1][..0]);
    var one := Served(c, raws[..1]);
    var two := Served(c, raws[..2]);
    var three := Served(c, raws[..3]);
    ClientCompletes(c, zero.state, [6]);
    ClientCompletes(c, one.state, [1]);
    ClientCompletes(c, two.state, config);
    ClientCompletes(c, three.state, [5]);
  }
}
