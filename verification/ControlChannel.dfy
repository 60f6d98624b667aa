/** What the peers say on the control channel, over every run of datagrams. */
module ControlChannel {
  import opened Bytes
  import opened Crc32c
  import opened AuthenticatedCbc
  import opened Peers
  import WireFields

  // ---------------------------------------------------- the control channel

  /** How many control packets with this id were sent. */
  function Count(sent: seq<Packet>, id: nat): nat {
    if sent == [] then 0
    else
      var n := |sent| - 1;
      Count(sent[..n], id) + if sent[n].channel == CONTROL && sent[n].id == id then 1 else 0
  }

  /** An encrypted control packet carries the crypto sequence number two below its id. */
  ghost predicate Numbered(c: Case, p: Packet) {
    p.channel == CONTROL && p.id >= 2 ==>
      exists m: Message, bad: bool ::
        p.body != [] && p.body[1..] == Encrypted(c.suite, m, bad) && m.sequence + 2 == p.id
  }

  function One(condition: bool): nat {
    if condition then 1 else 0
  }

  /** How many the flags account for. */
  function Expected(c: Case, s: State, id: nat): nat {
    One(s.handshake && id == 0) + One(s.response && id == 1) + One(s.initSent && c.badMac && id == 2)
    + One(s.initSent && id == 2 + Extra(c)) + One(s.configSent && id == 3 + Extra(c))
    + One(s.started && id == 4) + One(s.stopped && id == 5)
  }

  ghost predicate Accounted(c: Case, s: State) {
    && (forall id: nat :: Count(s.sent, id) == Expected(c, s, id))
    && (forall i :: 0 <= i < |s.sent| ==> Numbered(c, s.sent[i]))
  }

  /** Sending one packet. */
  lemma SendCounts(c: Case, s: State, p: Packet)
    requires (forall i :: 0 <= i < |s.sent| ==> Numbered(c, s.sent[i])) && Numbered(c, p)
    ensures forall id: nat :: Count(Send(s, p).sent, id) == Count(s.sent, id) + One(p.channel == CONTROL && p.id == id)
    ensures forall i :: 0 <= i < |Send(s, p).sent| ==> Numbered(c, Send(s, p).sent[i])
  {
    hide Numbered;
    assert Send(s, p).sent[..|s.sent|] == s.sent;
  }

  lemma SecretNumbered(c: Case, local: byte, id: nat, tag: byte, sequence: Sequence, plain: Octets, bad: bool)
    requires sequence + 2 == id
    ensures Numbered(c, Control(local, id, Secret(c, tag, sequence, plain, bad)))
  {
    var body := Secret(c, tag, sequence, plain, bad);
    assert body[1..] == Encrypted(c.suite, Message(sequence, plain), bad);
  }

  /** Sending one encrypted control packet. */
  lemma SendSecret(c: Case, s: State, local: byte, id: nat, tag: byte, sequence: Sequence, plain: Octets, bad: bool)
    requires sequence + 2 == id && forall i :: 0 <= i < |s.sent| ==> Numbered(c, s.sent[i])
    ensures var t := Send(s, Control(local, id, Secret(c, tag, sequence, plain, bad)));
            && (forall other: nat :: Count(t.sent, other) == Count(s.sent, other) + One(other == id))
            && forall i :: 0 <= i < |t.sent| ==> Numbered(c, t.sent[i])
  {
    hide Secret, Numbered;
    SecretNumbered(c, local, id, tag, sequence, plain, bad);
    SendCounts(c, s, Control(local, id, Secret(c, tag, sequence, plain, bad)));
  }

  lemma HandshakeAccounted(c: Case, s: State, local: byte)
    requires Accounted(c, s) && !s.handshake
    ensures Accounted(c, DoHandshake(c, s, local))
  {
    var p := Control(local, 0, c.server);
    assert Numbered(c, p);
    hide Numbered;
    SendCounts(c, s, p);
  }

  lemma ResponseAccounted(c: Case, s: State, local: byte)
    requires Accounted(c, s) && !s.response && c.response.Some?
    ensures Accounted(c, DoResponse(c, s, local))
  {
    var p := Control(local, 1, c.response.value);
    assert Numbered(c, p);
    hide Numbered;
    SendCounts(c, s, p);
  }

  lemma InitAccounted(c: Case, s: State, local: byte)
    requires Accounted(c, s) && !s.initSent
    ensures Accounted(c, DoInit(c, s, local))
  {
    hide Secret, Numbered, InitPlain;
    if c.badMac {
      SendSecret(c, s, local, 2, 3, 0, InitPlain(c), true);
      var t := Send(s, Control(local, 2, Secret(c, 3, 0, InitPlain(c), true)));
      SendSecret(c, t, local, 3, 3, 1, InitPlain(c), false);
    } else {
      SendSecret(c, s, local, 2, 3, 0, InitPlain(c), false);
    }
  }

  lemma ConfigAccounted(c: Case, s: State, local: byte, negotiated: Octets)
    requires Accounted(c, s) && !s.configSent && |negotiated| < 128
    ensures Accounted(c, DoConfig(c, s, local, negotiated))
  {
    hide Secret, Numbered, ConfigPlain;
    if c.badMac {
      SendSecret(c, s, local, 4, 4, 2, ConfigPlain(negotiated), false);
    } else {
      SendSecret(c, s, local, 3, 4, 1, ConfigPlain(negotiated), false);
    }
  }

  lemma StartAccounted(c: Case, s: State, local: byte)
    requires Accounted(c, s) && !s.started
    ensures Accounted(c, DoStart(c, s, local))
  {
    hide Secret, Numbered;
    if c.audio {
      SendSecret(c, s, local, 4, 50, 2, START_AUDIO, false);
    } else {
      SendSecret(c, s, local, 4, 52, 2, START_VIDEO, false);
    }
  }

  lemma StopExpected(c: Case, s: State, local: byte)
    requires !s.stopped
    ensures forall id: nat :: Expected(c, DoStop(c, s, local), id) == Expected(c, s, id) + One(id == 5)
  {
    hide StopSecret;
  }

  lemma StopAccounted(c: Case, s: State, local: byte)
    requires Accounted(c, s) && !s.stopped
    ensures Accounted(c, DoStop(c, s, local))
  {
    StopExpected(c, s, local);
    assert DoStop(c, s, local).sent == Send(s, Control(local, 5, StopSecret(c))).sent;
    hide Secret, Numbered, Expected, Count, One, DoStop, Send;
    SendSecret(c, s, local, 5, if c.audio then 51 else 53, 3, [], false);
  }

  /** Packets of other channels do not count. */
  lemma {:induction false} DataAccounted(c: Case, s: State, data: seq<Packet>)
    requires Accounted(c, s) && forall i :: 0 <= i < |data| ==> data[i].channel != CONTROL
    ensures Accounted(c, Stream(s, data))
    decreases |data|
  {
    if data == [] {
      assert s.sent + data == s.sent;
    } else {
      var n := |data| - 1;
      DataAccounted(c, s, data[..n]);
      assert Numbered(c, data[n]);
      hide Numbered;
      var t := s.(sent := s.sent + data[..n]);
      SendCounts(c, t, data[n]);
      assert Send(t, data[n]).sent == s.sent + data;
    }
  }

  lemma AuthAccounted(c: Case, s: State, raw: Octets)
    requires Accounted(c, s)
    ensures Accounted(c, Auth(c, s, raw).state)
  {
    if raw != [] && raw[0] == 1 && |raw| == 17 && !s.connected {
      ConnectAccounted(c, s, Packet(CONNECTED, 0, 7, raw[2], 0, 0, 0, 1000000, raw[9..13]));
    } else if Type(raw).Some? {
      hide Accounted, DoHandshake, DoResponse;
      TypedIsLong(raw);
      if !s.handshake {
        HandshakeAccounted(c, s, raw[2]);
      }
      if c.response.Some? && !s.response {
        ResponseAccounted(c, s, raw[2]);
      }
    }
  }

  lemma ConnectAccounted(c: Case, s: State, p: Packet)
    requires Accounted(c, s) && p.channel != CONTROL
    ensures Accounted(c, Send(s, p).(connected := true))
  {
    assert Numbered(c, p);
    hide Numbered;
    SendCounts(c, s, p);
  }

  lemma NegotiateAccounted(c: Case, s: State, raw: Octets)
    requires Accounted(c, s)
    ensures Accounted(c, Negotiate(c, s, raw).state)
  {
    hide Accounted, Auth, WithoutCrc, Negotiated, DoInit, DoConfig;
    AuthAccounted(c, s, raw);
    AuthOkNonempty(c, s, raw);
    var auth := Auth(c, s, raw);
    if auth.ok && Kind(raw) == 5 {
      TypedIsLong(raw);
      if !auth.state.initSent {
        InitAccounted(c, auth.state, raw[2]);
      }
      var value := Negotiated(c, WithoutCrc(raw).value);
      if !auth.state.configSent && value.Some? {
        ConfigAccounted(c, auth.state, raw[2], value.value);
      }
    }
  }

  lemma InitialAccounted(c: Case)
    ensures Accounted(c, INITIAL)
  {}

  predicate EachOnce(sent: seq<Packet>) {
    forall i, j :: 0 <= i < j < |sent| && sent[i].channel == sent[j].channel == CONTROL ==> sent[i].id != sent[j].id
  }

  lemma {:induction false} CountIsOccurrence(sent: seq<Packet>, id: nat)
    ensures Count(sent, id) > 0 <==> exists i :: 0 <= i < |sent| && sent[i].channel == CONTROL && sent[i].id == id
    decreases |sent|
  {
    if sent != [] {
      var n := |sent| - 1;
      CountIsOccurrence(sent[..n], id);
      if i :| 0 <= i < |sent| && sent[i].channel == CONTROL && sent[i].id == id {
        assert i < n ==> sent[..n][i] == sent[i];
      }
    }
  }

  lemma {:induction false} CountAtMostOne(sent: seq<Packet>, id: nat)
    requires EachOnce(sent)
    ensures Count(sent, id) <= 1
    decreases |sent|
  {
    if sent != [] {
      var n := |sent| - 1;
      CountAtMostOne(sent[..n], id);
      CountIsOccurrence(sent[..n], id);
    }
  }

  lemma {:induction false} CountedOnce(sent: seq<Packet>)
    requires forall id: nat :: Count(sent, id) <= 1
    ensures EachOnce(sent)
    decreases |sent|
  {
    if sent != [] {
      var n := |sent| - 1;
      forall id: nat ensures Count(sent[..n], id) <= 1 {
        assert Count(sent, id) <= 1;
      }
      CountedOnce(sent[..n]);
      CountIsOccurrence(sent[..n], sent[n].id);
      assert Count(sent, sent[n].id) <= 1;
      forall i | 0 <= i < n && sent[i].channel == sent[n].channel == CONTROL ensures sent[i].id != sent[n].id {
        assert sent[..n][i] == sent[i];
      }
      assert forall i :: 0 <= i < n ==> sent[..n][i] == sent[i];
    }
  }

  /** So a control id is sent at most once, unless a case with a bad MAC, whose numbers are all one
      higher, gets as far as both configuration and video start. */
  lemma SentOnceIff(c: Case, s: State)
    requires Accounted(c, s)
    ensures EachOnce(s.sent) <==> !(c.badMac && s.configSent && s.started)
  {
    if c.badMac && s.configSent && s.started {
      var four: nat := 4;
      assert Count(s.sent, four) == Expected(c, s, four) == 2;
      if EachOnce(s.sent) {
        CountAtMostOne(s.sent, four);
      }
    } else {
      forall id: nat ensures Count(s.sent, id) <= 1 {
        assert Count(s.sent, id) == Expected(c, s, id);
      }
      CountedOnce(s.sent);
    }
  }

  // ------------------------------------------------------------- the script

  /** A control message without the addresses that depend on the client. */
  datatype Entry = Entry(id: nat, body: Octets)

  /** What the peer says on the control channel up to the start of the stream, in order. */
  function Script(c: Case, negotiated: Octets): (script: seq<Entry>)
    requires c.response.Some? && |negotiated| < 128
    ensures |script| == 5 + Extra(c)
  {
    [Entry(0, c.server), Entry(1, c.response.value)]
    + (if c.badMac then [Entry(2, Secret(c, 3, 0, InitPlain(c), true))] else [])
    + [Entry(2 + Extra(c), Secret(c, 3, Extra(c), InitPlain(c), false)),
       Entry(3 + Extra(c), Secret(c, 4, 1 + Extra(c), ConfigPlain(negotiated), false)),
       Entry(4, StartSecret(c))]
  }

  /** The control packets sent, the stop apart. */
  function Log(sent: seq<Packet>): seq<Entry> {
    if sent == [] then []
    else
      var n := |sent| - 1;
      Log(sent[..n]) + if sent[n].channel == CONTROL && sent[n].id != 5 then [Entry(sent[n].id, sent[n].body)] else []
  }

  /** How far into the script the flags say the peer is. */
  function Reached(c: Case, s: State): nat {
    if s.started then 5 + Extra(c)
    else if s.configSent then 4 + Extra(c)
    else if s.initSent then 3 + Extra(c)
    else if s.response then 2
    else if s.handshake then 1
    else 0
  }

  /** Each flag only after the one before it, and the log is that much of the script. */
  ghost predicate OnScript(c: Case, s: State, negotiated: Octets) {
    && c.response.Some? && |negotiated| < 128
    && (s.response ==> s.handshake) && (s.initSent ==> s.response) && (s.configSent ==> s.initSent)
    && (s.started ==> s.configSent)
    && Log(s.sent) == Script(c, negotiated)[..Reached(c, s)]
  }

  lemma SendLogs(s: State, p: Packet)
    ensures Log(Send(s, p).sent)
         == Log(s.sent) + if p.channel == CONTROL && p.id != 5 then [Entry(p.id, p.body)] else []
  {
    assert Send(s, p).sent[..|s.sent|] == s.sent;
  }

  lemma HandshakeOnScript(c: Case, s: State, local: byte, v: Octets)
    requires OnScript(c, s, v) && !s.handshake
    ensures OnScript(c, DoHandshake(c, s, local), v)
  {
    hide Secret;
    SendLogs(s, Control(local, 0, c.server));
  }

  /** The response and the init message that goes out with it in the same call. */
  lemma ResponseOnScript(c: Case, s: State, local: byte, v: Octets)
    requires OnScript(c, s, v) && s.handshake && !s.response
    ensures OnScript(c, DoResponse(c, s, local), v)
  {
    hide Secret;
    SendLogs(s, Control(local, 1, c.response.value));
  }

  lemma InitOnScript(c: Case, s: State, local: byte, v: Octets)
    requires OnScript(c, s, v) && s.response && !s.initSent
    ensures OnScript(c, DoInit(c, s, local), v)
  {
    hide Secret, InitPlain;
    var t := if c.badMac then Send(s, Control(local, 2, Secret(c, 3, 0, InitPlain(c), true))) else s;
    if c.badMac {
      SendLogs(s, Control(local, 2, Secret(c, 3, 0, InitPlain(c), true)));
    }
    SendLogs(t, Control(local, 2 + Extra(c), Secret(c, 3, Extra(c), InitPlain(c), false)));
  }

  /** Until the configuration is sent the log does not depend on it. */
  lemma ConfigOnScript(c: Case, s: State, local: byte, v: Octets, negotiated: Octets)
    requires OnScript(c, s, v) && s.initSent && !s.configSent && |negotiated| < 128
    ensures OnScript(c, DoConfig(c, s, local, negotiated), negotiated)
  {
    hide Secret, ConfigPlain;
    SendLogs(s, Control(local, 3 + Extra(c), Secret(c, 4, 1 + Extra(c), ConfigPlain(negotiated), false)));
    assert Script(c, v)[..3 + Extra(c)] == Script(c, negotiated)[..3 + Extra(c)];
  }

  lemma StartOnScript(c: Case, s: State, local: byte, v: Octets)
    requires OnScript(c, s, v) && s.configSent && !s.started
    ensures OnScript(c, DoStart(c, s, local), v)
  {
    hide Secret;
    SendLogs(s, Control(local, 4, StartSecret(c)));
  }

  lemma StopOnScript(c: Case, s: State, local: byte, v: Octets)
    requires OnScript(c, s, v)
    ensures OnScript(c, DoStop(c, s, local), v)
  {
    hide Secret, Script;
    SendLogs(s, Control(local, 5, StopSecret(c)));
  }

  lemma {:induction false} DataLogs(s: State, data: seq<Packet>)
    requires forall i :: 0 <= i < |data| ==> data[i].channel != CONTROL
    ensures Log(s.sent + data) == Log(s.sent)
    decreases |data|
  {
    hide Log;
    if data == [] {
      assert s.sent + data == s.sent;
    } else {
      var n := |data| - 1;
      DataLogs(s, data[..n]);
      SendLogs(s.(sent := s.sent + data[..n]), data[n]);
      assert Send(s.(sent := s.sent + data[..n]), data[n]).sent == s.sent + data;
    }
  }

  lemma DataOnScript(c: Case, s: State, data: seq<Packet>, v: Octets)
    requires OnScript(c, s, v) && forall i :: 0 <= i < |data| ==> data[i].channel != CONTROL
    ensures OnScript(c, Stream(s, data), v)
  {
    hide Script, Log;
    DataLogs(s, data);
  }

  /** The client's messages come in order: a message only when the one before it has been
      answered. */
  predicate InOrder(s: State, raw: Octets) {
    && (Type(raw) == Some(1) ==> s.handshake)
    && (Type(raw) == Some(4) ==> s.initSent)
    && (Type(raw) == Some(5) ==> s.configSent)
  }

  lemma AuthOnScript(c: Case, s: State, raw: Octets, v: Octets)
    requires OnScript(c, s, v) && InOrder(s, raw)
    ensures OnScript(c, Auth(c, s, raw).state, v)
  {
    if raw != [] && raw[0] == 1 && |raw| == 17 && !s.connected {
      hide Script;
      SendLogs(s, Packet(CONNECTED, 0, 7, raw[2], 0, 0, 0, 1000000, raw[9..13]));
    } else if Type(raw).Some? {
      TypedIsLong(raw);
      if !s.handshake {
        HandshakeOnScript(c, s, raw[2], v);
      }
      if s.handshake && !s.response {
        ResponseOnScript(c, s, raw[2], v);
      }
    }
  }

  /** What the client asks for in a message of type 4, or nothing when reading it raises. */
  function Asked(c: Case, raw: Octets): (negotiated: Octets)
    requires Type(raw).Some?
    ensures |negotiated| < 128
  {
    match Negotiated(c, WithoutCrc(raw).value)
    case None => []
    case Some(value) => value
  }

  /** Before the configuration is sent, any will do. */
  lemma UndecidedScript(c: Case, s: State, v: Octets, w: Octets)
    requires OnScript(c, s, v) && !s.configSent && |w| < 128
    ensures OnScript(c, s, w)
  {
    hide Secret, ConfigPlain, InitPlain, StartSecret, Log;
    assert Script(c, v)[..3 + Extra(c)] == Script(c, w)[..3 + Extra(c)];
  }

  lemma NegotiateOnScript(c: Case, s: State, raw: Octets, v: Octets)
    requires OnScript(c, s, v) && InOrder(s, raw)
    ensures OnScript(c, Negotiate(c, s, raw).state, if Type(raw) == Some(4) && !s.configSent then Asked(c, raw) else v)
  {
    AuthOnScript(c, s, raw, v);
    AuthOkNonempty(c, s, raw);
    AuthAnswers(c, s, raw);
    var auth := Auth(c, s, raw);
    assert Type(raw).Some? ==> auth.ok;
    hide Script, Auth, DoInit, DoConfig, WithoutCrc, Log, OnScript, Type;
    if auth.ok && Kind(raw) == 5 {
      TypedIsLong(raw);
      var value := Negotiated(c, WithoutCrc(raw).value);
      if Type(raw) == Some(1) && auth.state.response && !auth.state.initSent {
        InitFollows(c, auth.state, raw[2], v);
      } else if Type(raw) == Some(4) && !auth.state.configSent {
        UndecidedScript(c, auth.state, v, Asked(c, raw));
        if value.Some? {
          ConfigFollows(c, s, auth.state, raw, v, value.value);
        }
      }
    }
  }

  lemma InitFollows(c: Case, s: State, local: byte, v: Octets)
    requires OnScript(c, s, v) && s.response && !s.initSent
    ensures OnScript(c, DoInit(c, s, local), v)
  {
    hide Script, DoInit, Log;
    InitOnScript(c, s, local, v);
  }

  lemma ConfigFollows(c: Case, s: State, after: State, raw: Octets, v: Octets, negotiated: Octets)
    requires OnScript(c, after, v) && InOrder(s, raw) && Type(raw) == Some(4) && !after.configSent && |negotiated| < 128
    requires s.initSent == after.initSent && |raw| > 2
    ensures OnScript(c, DoConfig(c, after, raw[2], negotiated), negotiated)
  {
    hide Script, DoConfig, Log, Type;
    ConfigOnScript(c, after, raw[2], v, negotiated);
  }

  /** A call never takes a flag back. */
  predicate Kept(s: State, t: State) {
    && (s.handshake ==> t.handshake) && (s.initSent ==> t.initSent) && (s.configSent ==> t.configSent)
    && (s.started ==> t.started)
  }

  /** A completed call has answered its message. */
  predicate Answered(s: State, raw: Octets) {
    && (Type(raw) == Some(6) ==> s.handshake)
    && (Type(raw) == Some(1) ==> s.initSent)
    && (Type(raw) == Some(4) ==> s.configSent)
  }

  lemma NegotiateAnswers(c: Case, s: State, raw: Octets)
    requires c.response.Some?
    ensures Kept(s, Negotiate(c, s, raw).state)
    ensures Negotiate(c, s, raw).ok ==> Answered(Negotiate(c, s, raw).state, raw)
    ensures Negotiate(c, s, raw).state.started == s.started
  {
    hide Secret, InitPlain, ConfigPlain, Negotiated, WithoutCrc, Type, Kind;
    AuthOkNonempty(c, s, raw);
    AuthAnswers(c, s, raw);
    hide Auth;
  }

  lemma AuthAnswers(c: Case, s: State, raw: Octets)
    requires c.response.Some?
    ensures var t := Auth(c, s, raw).state;
            && (s.handshake ==> t.handshake) && s.initSent == t.initSent && s.configSent == t.configSent
            && s.started == t.started
    ensures Type(raw).Some? ==> raw != [] && Kind(raw) == 5
    ensures Auth(c, s, raw).ok && Type(raw) == Some(6) ==> Auth(c, s, raw).state.handshake
    ensures Auth(c, s, raw).ok && Type(raw) == Some(1) ==> Auth(c, s, raw).state.response
  {
    TypedIsControl(raw);
    hide Type, DoHandshake, DoResponse;
    HandshakeSets(c, s, if |raw| > 2 then raw[2] else 0);
  }

  lemma TypedIsControl(raw: Octets)
    ensures Type(raw).Some? ==> raw != [] && Kind(raw) == 5 && |raw| > 13
  {
    hide WithoutCrc;
    TypedIsLong(raw);
  }

  lemma HandshakeSets(c: Case, s: State, local: byte)
    requires c.response.Some?
    ensures DoHandshake(c, s, local) == s.(handshake := true, sent := DoHandshake(c, s, local).sent)
    ensures DoResponse(c, s, local) == s.(response := true, sent := DoResponse(c, s, local).sent)
  {}

  predicate Seen(raws: seq<Octets>, t: byte) {
    exists i :: 0 <= i < |raws| && Type(raws[i]) == Some(t)
  }

  /** The first arrivals of the client's four messages come in the order 6, 1, 4, 5. Each may be
      repeated any number of times and anything else may come between them. */
  predicate FirstsInOrder(raws: seq<Octets>) {
    forall i :: 0 <= i < |raws| ==>
      && (Type(raws[i]) == Some(1) ==> Seen(raws[..i], 6))
      && (Type(raws[i]) == Some(4) ==> Seen(raws[..i], 1))
      && (Type(raws[i]) == Some(5) ==> Seen(raws[..i], 4))
  }

  /** What the first message of type 4 asks for. */
  function Agreed(c: Case, raws: seq<Octets>): (negotiated: Octets)
    ensures |negotiated| < 128
  {
    if raws == [] then []
    else
      var n := |raws| - 1;
      if Seen(raws[..n], 4) || Type(raws[n]) != Some(4) then Agreed(c, raws[..n]) else Asked(c, raws[n])
  }

  /** Every message seen has been answered. */
  predicate AnsweredAll(s: State, raws: seq<Octets>) {
    && (Seen(raws, 6) ==> s.handshake) && (Seen(raws, 1) ==> s.initSent) && (Seen(raws, 4) ==> s.configSent)
  }

  lemma FirstsInOrderPrefix(raws: seq<Octets>)
    requires raws != [] && FirstsInOrder(raws)
    ensures FirstsInOrder(raws[..|raws| - 1])
  {
    var n := |raws| - 1;
    forall i | 0 <= i < n ensures raws[..n][i] == raws[i] && raws[..n][..i] == raws[..i] {}
  }

  lemma SeenStep(raws: seq<Octets>, t: byte)
    requires raws != []
    ensures Seen(raws, t) ==> Seen(raws[..|raws| - 1], t) || Type(raws[|raws| - 1]) == Some(t)
  {
    var n := |raws| - 1;
    if i :| 0 <= i < n && Type(raws[i]) == Some(t) {
      assert raws[..n][i] == raws[i];
    }
  }

  /** A stop that raises has set its flag and sent nothing. */
  ghost predicate AccountedAtEnd(c: Case, s: State, ok: bool) {
    Accounted(c, s) || (!ok && s.stopped && Accounted(c, s.(stopped := false)))
  }

  /** What holds of the control channel after the datagrams `raws`, the last call completed or not. */
  ghost predicate Sound(c: Case, s: State, raws: seq<Octets>, ok: bool) {
    && AccountedAtEnd(c, s, ok)
    && (c.response.Some? && FirstsInOrder(raws) ==>
          && (ok ==> AnsweredAll(s, raws)) && (s.configSent ==> Seen(raws, 4))
          && OnScript(c, s, Agreed(c, raws)))
  }

  lemma InitialSound(c: Case)
    ensures Sound(c, INITIAL, [], true)
  {
    hide Secret, InitPlain, ConfigPlain;
    InitialAccounted(c);
  }

  lemma NegotiateSound(c: Case, s: State, raws: seq<Octets>, raw: Octets)
    requires Sound(c, s, raws, true)
    ensures Sound(c, Negotiate(c, s, raw).state, raws + [raw], Negotiate(c, s, raw).ok)
  {
    hide Accounted, Negotiate, OnScript, Type, Asked;
    NegotiateAccounted(c, s, raw);
    var after := raws + [raw];
    if c.response.Some? && FirstsInOrder(after) {
      Received(raws, raw);
      FirstsInOrderPrefix(after);
      assert InOrder(s, raw);
      NegotiateOnScript(c, s, raw, Agreed(c, raws));
      NegotiateAnswers(c, s, raw);
      NegotiateConfigures(c, s, raw);
    }
  }

  /** One datagram more. */
  lemma Received(raws: seq<Octets>, raw: Octets)
    ensures var after := raws + [raw];
            && after[..|after| - 1] == after[..|raws|] == raws && after[|after| - 1] == raw
            && (forall t: byte :: Seen(after, t) <==> Seen(raws, t) || Type(raw) == Some(t))
  {
    hide Type;
    var after := raws + [raw];
    forall t: byte
      ensures Seen(after, t) <==> Seen(raws, t) || Type(raw) == Some(t)
    {
      SeenStep(after, t);
      if i :| 0 <= i < |raws| && Type(raws[i]) == Some(t) {
        assert after[i] == raws[i];
      }
      assert after[|raws|] == raw;
    }
  }

  lemma NegotiateConfigures(c: Case, s: State, raw: Octets)
    ensures Negotiate(c, s, raw).state.configSent ==> s.configSent || Type(raw) == Some(4)
  {
    AuthOkNonempty(c, s, raw);
    AuthConfigures(c, s, raw);
    hide Auth, Type, Negotiated, WithoutCrc, Secret, InitPlain, ConfigPlain;
  }

  lemma AuthConfigures(c: Case, s: State, raw: Octets)
    ensures Auth(c, s, raw).state.configSent == s.configSent
  {
    hide Type;
  }

  /** The start answers the datagram last received. */
  lemma StartSound(c: Case, s: State, raws: seq<Octets>, local: byte)
    requires Sound(c, s, raws, true) && !s.started && raws != [] && Type(raws[|raws| - 1]) == Some(5)
    ensures Sound(c, DoStart(c, s, local), raws, true)
  {
    hide Accounted, Script, Type, Log, StartSecret;
    StartAccounted(c, s, local);
    if c.response.Some? && FirstsInOrder(raws) {
      var n := |raws| - 1;
      assert Seen(raws[..n], 4);
      var i :| 0 <= i < n && Type(raws[..n][i]) == Some(4);
      assert Type(raws[i]) == Some(4) && Seen(raws, 4);
      StartOnScript(c, s, local, Agreed(c, raws));
    }
  }

  lemma StopSound(c: Case, s: State, raws: seq<Octets>, local: byte)
    requires Sound(c, s, raws, true) && !s.stopped
    ensures Sound(c, DoStop(c, s, local), raws, true)
  {
    hide Accounted, Script, Type, Log, StopSecret, OnScript, FirstsInOrder;
    StopAccounted(c, s, local);
    if c.response.Some? && FirstsInOrder(raws) {
      StopOnScript(c, s, local, Agreed(c, raws));
    }
  }

  lemma StopFails(c: Case, s: State, raws: seq<Octets>)
    requires Sound(c, s, raws, true) && !s.stopped
    ensures Sound(c, s.(stopped := true), raws, false)
  {
    hide Accounted, Script, Type, Log, FirstsInOrder, AnsweredAll;
    assert s.(stopped := true).(stopped := false) == s;
    if c.response.Some? && FirstsInOrder(raws) {
      assert OnScript(c, s.(stopped := true), Agreed(c, raws));
    }
  }

  lemma StreamSound(c: Case, s: State, raws: seq<Octets>, data: seq<Packet>)
    requires Sound(c, s, raws, true) && forall i :: 0 <= i < |data| ==> data[i].channel != CONTROL
    ensures Sound(c, Stream(s, data), raws, true)
  {
    hide Accounted, Script, Type, Log, OnScript, FirstsInOrder;
    DataAccounted(c, s, data);
    if c.response.Some? && FirstsInOrder(raws) {
      DataOnScript(c, s, data, Agreed(c, raws));
    }
  }

  /** A run may break off after a call that had completed so far. */
  lemma SoundAnyway(c: Case, s: State, raws: seq<Octets>)
    requires Sound(c, s, raws, true)
    ensures Sound(c, s, raws, false)
  {}

  /** What arrives after the run has broken off changes nothing. */
  lemma SoundExtends(c: Case, s: State, raws: seq<Octets>, raw: Octets)
    requires Sound(c, s, raws, false)
    ensures Sound(c, s, raws + [raw], false)
  {
    hide Accounted, OnScript, Type, Asked;
    var after := raws + [raw];
    if c.response.Some? && FirstsInOrder(after) {
      Received(raws, raw);
      FirstsInOrderPrefix(after);
      if !s.configSent {
        UndecidedScript(c, s, Agreed(c, raws), Agreed(c, after));
      }
    }
  }

  /** What soundness says without its parts: an id per control packet, with the one exception,
      and, when the client's messages come in order, a prefix of one script besides the stop. */
  lemma SoundMeans(c: Case, s: State, raws: seq<Octets>, ok: bool)
    requires Sound(c, s, raws, ok)
    ensures EachOnce(s.sent) <==> !(c.badMac && s.configSent && s.started)
    ensures Count(s.sent, 5) <= One(s.stopped) && (ok ==> Count(s.sent, 5) == One(s.stopped))
    ensures c.response.Some? && FirstsInOrder(raws) ==> Log(s.sent) <= Script(c, Agreed(c, raws))
  {
    hide Script, Log, FirstsInOrder;
    var counted := if Accounted(c, s) then s else s.(stopped := false);
    SentOnceIff(c, counted);
    assert Count(s.sent, 5) == Expected(c, counted, 5);
  }

  /** The script is one for the run: what has been said after some of its datagrams is a prefix of
      the script that all of them determine. */
  lemma {:induction false} OneScript(c: Case, s: State, raws: seq<Octets>, ok: bool, more: seq<Octets>)
    requires Sound(c, s, raws, ok) && c.response.Some? && FirstsInOrder(raws + more)
    ensures Log(s.sent) <= Script(c, Agreed(c, raws + more))
    decreases |more|
  {
    hide Script, Log, Sound, FirstsInOrder, Agreed, EachOnce, Count;
    if ok {
      SoundAnyway(c, s, raws);
    }
    if more == [] {
      assert raws + more == raws;
      SoundMeans(c, s, raws, ok);
    } else {
      SoundExtends(c, s, raws, more[0]);
      assert raws + more == raws + [more[0]] + more[1..];
      OneScript(c, s, raws + [more[0]], false, more[1..]);
    }
  }

  /** Without a bad MAC the script's ids are its positions; with one, the last two are equal. */
  lemma ScriptIds(c: Case, v: Octets, i: nat)
    requires c.response.Some? && |v| < 128 && i < |Script(c, v)|
    ensures Script(c, v)[i].id == if i == 5 then 4 else i
    ensures |Script(c, v)| == 5 + Extra(c)
  {
    hide Secret, InitPlain, ConfigPlain;
  }
}
