/** The peers that drop a video fragment and recover with a key frame on the client's feedback,
    steered by a file whose content names a stage. */
module GapPeer {
  import opened Bytes
  import opened Crc32c
  import opened AuthenticatedCbc
  import opened Peers
  import opened ControlChannel
  import WireFields

  /** `burst` selects the subclass, `clip` is the video fixture, and `feedback` tells whether a
      datagram, normalised, is the one expected. */
  datatype GapCase = GapCase(common: Case, burst: bool, clip: Octets, feedback: Octets -> bool)

  /** What the stage file says; `Other` when it is absent or says anything else. */
  datatype Stage = Seed | PostKey | StopNow | Other

  /** The inherited fields, the peer's own flags, whether the case has recorded a feedback, and the
      client's address byte once started. */
  datatype Gap = Gap(base: State, seeded: bool, sentKey: bool, sentPost: bool, fedBack: bool, local: byte)

  const FRESH: Gap := Gap(INITIAL, false, false, false, false, 0)

  datatype GapOutcome = GapOutcome(gap: Gap, ok: bool)

  // ---------------------------------------------------------- what is sent

  /** `<HIHI` and `<HBHH` after the leading one, then the bytes of the clip. */
  function Body(c: GapCase, fid: nat, sequence: nat, timestamp: nat, start: nat, size: nat, flags: byte): Octets {
    VideoHead(fid, timestamp, sequence, flags) + WireFields.Slice(c.clip, start, size)
  }

  function Data(c: GapCase, local: byte, id: nat, payload: Octets, timestamp: nat, fragment: int, head: bool): Packet {
    Packet(if c.common.reliable then (if head then 5 else 6) else (if head then 3 else 4),
           0, 7, local, 3, fragment, id, timestamp, payload)
  }

  /** A frame of two packets, cut after 1200 bytes. */
  function Halves(c: GapCase, local: byte, id: nat, value: Octets, timestamp: nat): (packets: seq<Packet>)
    ensures |packets| == 2 && packets[0].id == id && packets[1].id == id + 1
    ensures packets[0].channel == packets[1].channel == 3
    ensures packets[0].body + packets[1].body == value
  {
    assert |value| > 1200 ==> value[..1200] + value[1200..] == value;
    [Data(c, local, id, WireFields.Slice(value, 0, 1200), timestamp, 1, true),
     Data(c, local, id + 1, if |value| > 1200 then value[1200..] else [], timestamp, 0, false)]
  }

  function First(c: GapCase, local: byte): seq<Packet> {
    Halves(c, local, 0, Body(c, 23, 0, 1000000, 0, 2204, 24), 1000000)
  }

  /** The fault: of the first of three frames only the head goes out, its tail would be packet 3. */
  function Fault(c: GapCase, local: byte): seq<Packet> {
    var lost := Body(c, 24, 1, 1005000, 2204, 411, 8);
    [Data(c, local, 2, WireFields.Slice(lost, 0, 200), 1005000, 1, true),
     Data(c, local, 4, Body(c, 25, 2, 1010000, 2615, 425, 8), 1010000, 0, true),
     Data(c, local, 5, Body(c, 26, 3, 1030000, 3040, 486, 8), 1030000, 0, true)]
  }

  function Key(c: GapCase, local: byte): seq<Packet> {
    Halves(c, local, 6, Body(c, 29, 4, 1040000, 4552, 1953, 24), 1040000)
  }

  function After(c: GapCase, local: byte): seq<Packet> {
    [Data(c, local, 8, Body(c, 30, 5, 1040100, 6505, 501, 8), 1040100, 0, true)]
  }

  // ------------------------------------------------------------------ steps

  function SendAll(g: Gap, packets: seq<Packet>): Gap {
    g.(base := Stream(g.base, packets))
  }

  /** `recovery` of the peer, or of its burst subclass, whose assertion comes after the key frame. */
  function Recovery(c: GapCase, g: Gap): GapOutcome {
    if g.sentKey then GapOutcome(g, true)
    else
      var key := SendAll(g.(sentKey := true), Key(c, g.local));
      if !c.burst then GapOutcome(key, true)
      else if c.common.reliable then GapOutcome(key, false)
      else GapOutcome(SendAll(key.(sentPost := true), After(c, g.local)), true)
  }

  /** The seed barrier. */
  function Seeding(c: GapCase, g: Gap, stage: Stage): GapOutcome {
    if stage == Seed && !g.seeded then
      if !g.base.started then GapOutcome(g, false)
      else
        var fault := SendAll(g.(seeded := true), Fault(c, g.local));
        if c.common.reliable then Recovery(c, fault) else GapOutcome(fault, true)
    else GapOutcome(g, true)
  }

  function PostKeying(c: GapCase, g: Gap, stage: Stage): GapOutcome {
    if stage == PostKey && !g.sentPost then
      if c.common.reliable || !g.sentKey then GapOutcome(g, false)
      else GapOutcome(SendAll(g.(sentPost := true), After(c, g.local)), true)
    else GapOutcome(g, true)
  }

  /** Stopping before the start fails on the missing address, with the flag already set. */
  function Stopping(c: GapCase, g: Gap, stage: Stage): GapOutcome {
    if stage == StopNow && !g.base.stopped then
      if !g.base.started then GapOutcome(g.(base := g.base.(stopped := true)), false)
      else GapOutcome(g.(base := DoStop(c.common, g.base, g.local)), true)
    else GapOutcome(g, true)
  }

  /** `on_idle` */
  function Idle(c: GapCase, g: Gap, stage: Stage): GapOutcome {
    var a := Seeding(c, g, stage);
    if !a.ok then a
    else
      var b := PostKeying(c, a.gap, stage);
      if !b.ok then b else Stopping(c, b.gap, stage)
  }

  /** The expected feedback is recorded once, and answered unless the case is reliable. */
  function Feedback(c: GapCase, g: Gap, raw: Octets, data: Octets): GapOutcome
    requires |data| > 4
  {
    if data[4] == 3 && (data[0] % 128 == 3 || data[0] % 128 == 8) && c.feedback(raw) && !g.fedBack then
      if c.common.reliable then GapOutcome(g.(fedBack := true), true)
      else if !g.seeded then GapOutcome(g.(fedBack := true), false)
      else Recovery(c, g.(fedBack := true))
    else GapOutcome(g, true)
  }

  function Starting(c: GapCase, g: Gap, local: byte): Gap {
    var started := g.(base := DoStart(c.common, g.base, local), local := local);
    SendAll(started, First(c, local))
  }

  /** The negotiation a datagram goes through after the barrier has been served. */
  function Negotiating(c: GapCase, g: Gap, raw: Octets): GapOutcome {
    var n := Negotiate(c.common, g.base, raw);
    GapOutcome(g.(base := n.state), n.ok)
  }

  /** `__call__` after that. */
  function React(c: GapCase, g: Gap, raw: Octets): GapOutcome {
    match WithoutCrc(raw)
    case Raised => GapOutcome(g, false)
    case Ok(data) =>
      if |data| <= 4 then GapOutcome(g, false)
      else
        var a := Feedback(c, g, raw, data);
        if !a.ok then a
        else if Starts(a.gap.base, data) then
          StripKeepsKind(raw);
          GapOutcome(Starting(c, a.gap, raw[2]), true)
        else a
  }

  function Call(c: GapCase, g: Gap, stage: Stage, raw: Octets): GapOutcome {
    var idle := Idle(c, g, stage);
    if !idle.ok then idle
    else
      var negotiated := Negotiating(c, idle.gap, raw);
      if !negotiated.ok then negotiated else React(c, negotiated.gap, raw)
  }

  // ----------------------------------------------------------------- the peer

  class Peer {
    const c: GapCase
    const base: Peers.Peer
    var seeded: bool
    var sentKey: bool
    var sentPost: bool
    var fedBack: bool
    var local: byte

    function Now(): Gap
      reads this, base
    {
      Gap(base.Now(), seeded, sentKey, sentPost, fedBack, local)
    }

    constructor (c: GapCase)
      ensures this.c == c && base.c == c.common && fresh(base) && Now() == FRESH
    {
      this.c := c;
      base := new Peers.Peer(c.common);
      seeded, sentKey, sentPost, fedBack, local := false, false, false, false, 0;
    }

    method SendData(id: nat, payload: Octets, timestamp: nat, fragment: int, head: bool)
      modifies base
      ensures Now() == SendAll(old(Now()), [Data(c, local, id, payload, timestamp, fragment, head)])
    {
      base.Transmit(Data(c, local, id, payload, timestamp, fragment, head));
    }

    /** `recovery`, with what the burst subclass adds. */
    method Recover() returns (ok: bool)
      requires base.c == c.common
      modifies this, base
      ensures GapOutcome(Now(), ok) == Recovery(c, old(Now()))
    {
      hide Body;
      if sentKey {
        return true;
      }
      sentKey := true;
      var value := Body(c, 29, 4, 1040000, 4552, 1953, 24);
      SendData(6, WireFields.Slice(value, 0, 1200), 1040000, 1, true);
      SendData(7, if |value| > 1200 then value[1200..] else [], 1040000, 0, false);
      assert Now() == SendAll(old(Now()).(sentKey := true), Key(c, local));
      ok := true;
      if c.burst {
        if c.common.reliable {
          return false;
        }
        sentPost := true;
        SendData(8, Body(c, 30, 5, 1040100, 6505, 501, 8), 1040100, 0, true);
      }
    }

    method ServeSeed(stage: Stage) returns (ok: bool)
      requires base.c == c.common
      modifies this, base
      ensures GapOutcome(Now(), ok) == Seeding(c, old(Now()), stage)
    {
      hide Body, Recovery, Key;
      ok := true;
      if stage == Seed && !seeded {
        if !base.started {
          return false;
        }
        seeded := true;
        var lost := Body(c, 24, 1, 1005000, 2204, 411, 8);
        SendData(2, WireFields.Slice(lost, 0, 200), 1005000, 1, true);
        SendData(4, Body(c, 25, 2, 1010000, 2615, 425, 8), 1010000, 0, true);
        SendData(5, Body(c, 26, 3, 1030000, 3040, 486, 8), 1030000, 0, true);
        assert Now() == SendAll(old(Now()).(seeded := true), Fault(c, local));
        if c.common.reliable {
          ok := Recover();
        }
      }
    }

    method OnIdle(stage: Stage) returns (ok: bool)
      requires base.c == c.common
      modifies this, base
      ensures GapOutcome(Now(), ok) == Idle(c, old(Now()), stage)
    {
      hide Body, Recovery, Seeding, StopSecret;
      ok := ServeSeed(stage);
      if !ok {
        return;
      }
      if stage == PostKey && !sentPost {
        if c.common.reliable || !sentKey {
          return false;
        }
        sentPost := true;
        SendData(8, Body(c, 30, 5, 1040100, 6505, 501, 8), 1040100, 0, true);
      }
      if stage == StopNow && !base.stopped {
        if !base.started {
          base.stopped := true;
          return false;
        }
        base.SendStop(local);
      }
    }

    method Heed(raw: Octets, data: Octets) returns (ok: bool)
      requires base.c == c.common && |data| > 4
      modifies this, base
      ensures GapOutcome(Now(), ok) == Feedback(c, old(Now()), raw, data)
    {
      hide Recovery;
      ok := true;
      if data[4] == 3 && (data[0] % 128 == 3 || data[0] % 128 == 8) && c.feedback(raw) && !fedBack {
        fedBack := true;
        if !c.common.reliable {
          if !seeded {
            return false;
          }
          ok := Recover();
        }
      }
    }

    method Start(at: byte)
      requires base.c == c.common
      modifies this, base
      ensures Now() == Starting(c, old(Now()), at)
    {
      hide Body, StartSecret;
      local := at;
      base.SendStart(at);
      var value := Body(c, 23, 0, 1000000, 0, 2204, 24);
      ghost var before := Now();
      SendData(0, WireFields.Slice(value, 0, 1200), 1000000, 1, true);
      SendData(1, if |value| > 1200 then value[1200..] else [], 1000000, 0, false);
      assert Now() == SendAll(before, First(c, local));
    }

    method Receive(raw: Octets, stage: Stage) returns (ok: bool)
      requires base.c == c.common
      modifies this, base
      ensures GapOutcome(Now(), ok) == Call(c, old(Now()), stage, raw)
    {
      hide Idle, Feedback, Starting, WithoutCrc, Negotiate;
      ok := OnIdle(stage);
      if !ok {
        return;
      }
      ok := base.CallNegotiate(raw);
      if !ok {
        return;
      }
      var stripped := StripCrc(raw);
      if stripped.Raised? || |stripped.value| <= 4 {
        return false;
      }
      ok := Heed(raw, stripped.value);
      if ok && Starts(base.Now(), stripped.value) {
        StripKeepsKind(raw);
        Start(raw[2]);
      }
    }

    /** The serving loop: events up to the first exception. */
    method Serve(events: seq<Event>) returns (ok: bool)
      requires Now() == FRESH && base.c == c.common
      modifies this, base
      ensures GapOutcome(Now(), ok) == Served(c, events)
    {
      hide Idle, Call;
      ok := true;
      for n := 0 to |events|
        invariant ok && GapOutcome(Now(), ok) == Served(c, events[..n])
      {
        assert events[..n + 1][..n] == events[..n];
        match events[n] {
          case Tick(stage) => ok := OnIdle(stage);
          case Datagram(stage, raw) => ok := Receive(raw, stage);
        }
        if !ok {
          BrokenOff(c, events, n + 1);
          return;
        }
      }
      assert events[..|events|] == events;
    }
  }

  // ---------------------------------------------------------------- the plan

  /** Everything the peer may stream, in the only order in which it may. */
  function Plan(c: GapCase, local: byte): (plan: seq<Packet>)
    ensures |plan| == 8
  {
    First(c, local) + Fault(c, local) + Key(c, local) + After(c, local)
  }

  /** How much of the plan the flags stand for. */
  function Reached(g: Gap): nat {
    if g.sentPost then 8 else if g.sentKey then 7 else if g.seeded then 5 else if g.base.started then 2 else 0
  }

  /** Each flag only after the one before it, and the media packets sent are that much of the plan. */
  predicate OnPlan(c: GapCase, g: Gap) {
    && (g.seeded ==> g.base.started) && (g.sentKey ==> g.seeded) && (g.sentPost ==> g.sentKey)
    && Media(g.base.sent) == Plan(c, g.local)[..Reached(g)]
  }

  /** The plan's packet ids: 3, the missing tail, is not among them, and no id is there twice. */
  lemma PlanIds(c: GapCase, local: byte, i: nat)
    requires i < 8
    ensures Plan(c, local)[i].id == if i < 3 then i else i + 1
    ensures Plan(c, local)[i].channel == 3 && Plan(c, local)[i].local == local
  {
    hide Body, WireFields.Slice;
  }

  /** The frames that do go out whole are put together from their packets; of the lost one only the
      beginning is sent. */
  lemma PlanFrames(c: GapCase, local: byte)
    ensures var p := Plan(c, local);
            && p[0].body + p[1].body == Body(c, 23, 0, 1000000, 0, 2204, 24)
            && (|c.clip| >= 2615 ==> p[2].body < Body(c, 24, 1, 1005000, 2204, 411, 8))
            && p[5].body + p[6].body == Body(c, 29, 4, 1040000, 4552, 1953, 24)
  {
    var p := Plan(c, local);
    var lost := Body(c, 24, 1, 1005000, 2204, 411, 8);
    assert |c.clip| >= 2615 ==> |lost| > 200;
    hide Body, Halves;
    assert p[0] == First(c, local)[0] && p[1] == First(c, local)[1];
    assert p[5] == Key(c, local)[0] && p[6] == Key(c, local)[1];
    assert p[2] == Fault(c, local)[0];
    assert p[2].body == WireFields.Slice(lost, 0, 200);
  }

  // ---------------------------------------------------------------- every run

  ghost predicate Fine(c: GapCase, g: Gap, raws: seq<Octets>, ok: bool) {
    Sound(c.common, g.base, raws, ok) && OnPlan(c, g)
  }

  lemma BreaksOff(c: GapCase, g: Gap, raws: seq<Octets>)
    requires Fine(c, g, raws, true)
    ensures Fine(c, g, raws, false)
  {
    hide Sound;
    SoundAnyway(c.common, g.base, raws);
  }

  lemma PlanIsMedia(c: GapCase, local: byte, from: nat, to: nat)
    requires from <= to <= 8
    ensures forall i :: 0 <= i < to - from ==> Plan(c, local)[from..to][i].channel == 3
  {
    forall i | 0 <= i < to - from ensures Plan(c, local)[from..to][i].channel == 3 {
      PlanIds(c, local, from + i);
    }
  }

  /** Sending the next part of the plan while setting its flag. */
  lemma Advances(c: GapCase, g: Gap, h: Gap, packets: seq<Packet>, raws: seq<Octets>)
    requires Fine(c, g, raws, true)
    requires h.base == Stream(g.base, packets) && h.local == g.local
    requires (h.seeded ==> g.base.started) && (h.sentKey ==> h.seeded) && (h.sentPost ==> h.sentKey)
    requires Reached(g) <= Reached(h) && packets == Plan(c, g.local)[Reached(g)..Reached(h)]
    ensures Fine(c, h, raws, true)
  {
    var from, to := Reached(g), Reached(h);
    assert h.base.started == g.base.started;
    hide Sound, Plan, Media, Stream, Reached;
    PlanIsMedia(c, g.local, from, to);
    StreamSound(c.common, g.base, raws, packets);
    StreamMedia(g.base, packets);
    PlanJoins(c, g.local, from, to);
  }

  lemma PlanJoins(c: GapCase, local: byte, from: nat, to: nat)
    requires from <= to <= 8
    ensures Plan(c, local)[..from] + Plan(c, local)[from..to] == Plan(c, local)[..to]
  {
    hide Plan;
  }

  lemma PlanParts(c: GapCase, local: byte)
    ensures Plan(c, local)[0..2] == First(c, local) && Plan(c, local)[2..5] == Fault(c, local)
    ensures Plan(c, local)[5..7] == Key(c, local) && Plan(c, local)[7..8] == After(c, local)
  {
    hide Body;
  }

  /** The flags of a fine state. */
  lemma Chained(c: GapCase, g: Gap, raws: seq<Octets>, ok: bool)
    requires Fine(c, g, raws, ok)
    ensures (g.seeded ==> g.base.started) && (g.sentKey ==> g.seeded) && (g.sentPost ==> g.sentKey)
  {}

  lemma KeyFine(c: GapCase, g: Gap, raws: seq<Octets>)
    requires Fine(c, g, raws, true) && g.seeded && !g.sentKey
    ensures Fine(c, SendAll(g.(sentKey := true), Key(c, g.local)), raws, true)
  {
    Chained(c, g, raws, true);
    PlanParts(c, g.local);
    hide Fine, Plan, Key, Stream;
    Advances(c, g, SendAll(g.(sentKey := true), Key(c, g.local)), Key(c, g.local), raws);
  }

  lemma AfterFine(c: GapCase, g: Gap, raws: seq<Octets>)
    requires Fine(c, g, raws, true) && g.sentKey && !g.sentPost
    ensures Fine(c, SendAll(g.(sentPost := true), After(c, g.local)), raws, true)
  {
    Chained(c, g, raws, true);
    PlanParts(c, g.local);
    hide Fine, Plan, After, Stream;
    Advances(c, g, SendAll(g.(sentPost := true), After(c, g.local)), After(c, g.local), raws);
  }

  lemma RecoveryFine(c: GapCase, g: Gap, raws: seq<Octets>)
    requires Fine(c, g, raws, true) && g.seeded
    ensures Fine(c, Recovery(c, g).gap, raws, Recovery(c, g).ok)
  {
    Chained(c, g, raws, true);
    hide Fine, Key, After, Stream;
    if !g.sentKey {
      var key := SendAll(g.(sentKey := true), Key(c, g.local));
      KeyFine(c, g, raws);
      BreaksOff(c, key, raws);
      if c.burst {
        AfterFine(c, key, raws);
      }
    }
  }

  lemma SeedingFine(c: GapCase, g: Gap, stage: Stage, raws: seq<Octets>)
    requires Fine(c, g, raws, true)
    ensures Fine(c, Seeding(c, g, stage).gap, raws, Seeding(c, g, stage).ok)
  {
    BreaksOff(c, g, raws);
    if stage == Seed && !g.seeded && g.base.started {
      var fault := SendAll(g.(seeded := true), Fault(c, g.local));
      Chained(c, g, raws, true);
      PlanParts(c, g.local);
      hide Fine, Plan, Fault, Stream;
      Advances(c, g, fault, Fault(c, g.local), raws);
      if c.common.reliable {
        RecoveryFine(c, fault, raws);
      }
    }
  }

  lemma PostKeyingFine(c: GapCase, g: Gap, stage: Stage, raws: seq<Octets>)
    requires Fine(c, g, raws, true)
    ensures Fine(c, PostKeying(c, g, stage).gap, raws, PostKeying(c, g, stage).ok)
  {
    hide Fine, After;
    BreaksOff(c, g, raws);
    if g.sentKey && !g.sentPost {
      AfterFine(c, g, raws);
    }
  }

  lemma StoppingFine(c: GapCase, g: Gap, stage: Stage, raws: seq<Octets>)
    requires Fine(c, g, raws, true)
    ensures Fine(c, Stopping(c, g, stage).gap, raws, Stopping(c, g, stage).ok)
  {
    hide Sound, Plan, Media, StopSecret;
    if !g.base.stopped {
      StopFails(c.common, g.base, raws);
      StopSound(c.common, g.base, raws, g.local);
      SendMedia(g.base, Control(g.local, 5, StopSecret(c.common)));
    }
  }

  lemma IdleFine(c: GapCase, g: Gap, stage: Stage, raws: seq<Octets>)
    requires Fine(c, g, raws, true)
    ensures Fine(c, Idle(c, g, stage).gap, raws, Idle(c, g, stage).ok)
  {
    hide Fine, Seeding, PostKeying, Stopping;
    SeedingFine(c, g, stage, raws);
    var a := Seeding(c, g, stage);
    if a.ok {
      PostKeyingFine(c, a.gap, stage, raws);
      if PostKeying(c, a.gap, stage).ok {
        StoppingFine(c, PostKeying(c, a.gap, stage).gap, stage, raws);
      }
    }
  }

  lemma NegotiatingFine(c: GapCase, g: Gap, raws: seq<Octets>, raw: Octets)
    requires Fine(c, g, raws, true)
    ensures Fine(c, Negotiating(c, g, raw).gap, raws + [raw], Negotiating(c, g, raw).ok)
  {
    hide Sound, Plan, Media, Negotiate;
    NegotiateSound(c.common, g.base, raws, raw);
    NegotiateUntouched(c.common, g.base, raw);
  }

  lemma StartingFine(c: GapCase, g: Gap, raws: seq<Octets>, local: byte)
    requires Fine(c, g, raws, true) && !g.base.started && raws != [] && Type(raws[|raws| - 1]) == Some(5)
    ensures Fine(c, Starting(c, g, local), raws, true)
  {
    var first, started := First(c, local), DoStart(c.common, g.base, local);
    PlanIsMedia(c, local, 0, 2);
    PlanParts(c, local);
    hide Sound, Plan, Media, StartSecret, Type, First;
    StartSound(c.common, g.base, raws, local);
    SendMedia(g.base, Control(local, 4, StartSecret(c.common)));
    StreamSound(c.common, started, raws, first);
    StreamMedia(started, first);
    assert Plan(c, local)[..2] == Plan(c, local)[0..2];
    assert Media(g.base.sent) == [];
  }

  lemma FeedbackFine(c: GapCase, g: Gap, raws: seq<Octets>, raw: Octets, data: Octets)
    requires Fine(c, g, raws, true) && |data| > 4
    ensures Fine(c, Feedback(c, g, raw, data).gap, raws, Feedback(c, g, raw, data).ok)
  {
    var noted := g.(fedBack := true);
    assert Fine(c, noted, raws, true);
    BreaksOff(c, noted, raws);
    hide Fine, Recovery;
    if g.seeded {
      RecoveryFine(c, noted, raws);
    }
  }

  lemma CallFine(c: GapCase, g: Gap, stage: Stage, raws: seq<Octets>, raw: Octets)
    requires Fine(c, g, raws, true)
    ensures Fine(c, Call(c, g, stage, raw).gap, raws + [raw], Call(c, g, stage, raw).ok)
  {
    hide Fine, Idle, Negotiating, React;
    IdleFine(c, g, stage, raws);
    var idle := Idle(c, g, stage);
    if idle.ok {
      NegotiatingFine(c, idle.gap, raws, raw);
      var negotiated := Negotiating(c, idle.gap, raw);
      if negotiated.ok {
        ReactFine(c, negotiated.gap, raws + [raw], raw);
      }
    } else {
      FineExtends(c, idle.gap, raws, raw);
    }
  }

  lemma FineExtends(c: GapCase, g: Gap, raws: seq<Octets>, raw: Octets)
    requires Fine(c, g, raws, false)
    ensures Fine(c, g, raws + [raw], false)
  {
    hide Sound;
    SoundExtends(c.common, g.base, raws, raw);
  }

  lemma ReactFine(c: GapCase, g: Gap, raws: seq<Octets>, raw: Octets)
    requires Fine(c, g, raws, true) && raws != [] && raws[|raws| - 1] == raw
    ensures Fine(c, React(c, g, raw).gap, raws, React(c, g, raw).ok)
  {
    hide Fine, Feedback, Starting, WithoutCrc, Type;
    BreaksOff(c, g, raws);
    if WithoutCrc(raw).Ok? && |WithoutCrc(raw).value| > 4 {
      var data := WithoutCrc(raw).value;
      FeedbackFine(c, g, raws, raw, data);
      var a := Feedback(c, g, raw, data);
      if a.ok && Starts(a.gap.base, data) {
        StripKeepsKind(raw);
        StartingFine(c, a.gap, raws, raw[2]);
      }
    }
  }

  /** What the serving loop gives the peer: silence, or a datagram. Either finds the file at some
      stage. */
  datatype Event = Tick(stage: Stage) | Datagram(stage: Stage, raw: Octets)

  function Step(c: GapCase, g: Gap, e: Event): GapOutcome {
    match e
    case Tick(stage) => Idle(c, g, stage)
    case Datagram(stage, raw) => Call(c, g, stage, raw)
  }

  /** Any run, up to the first exception. */
  function Served(c: GapCase, events: seq<Event>): GapOutcome {
    if events == [] then GapOutcome(FRESH, true)
    else
      var n := |events| - 1;
      var before := Served(c, events[..n]);
      if before.ok then Step(c, before.gap, events[n]) else before
  }

  lemma {:induction false} BrokenOff(c: GapCase, events: seq<Event>, n: nat)
    requires n <= |events| && !Served(c, events[..n]).ok
    ensures Served(c, events) == Served(c, events[..n])
    decreases |events|
  {
    hide Idle, Call;
    if n < |events| {
      var before := events[..|events| - 1];
      assert before[..n] == events[..n];
      BrokenOff(c, before, n);
    } else {
      assert events[..n] == events;
    }
  }

  function Datagrams(events: seq<Event>): seq<Octets> {
    if events == [] then []
    else
      var n := |events| - 1;
      Datagrams(events[..n]) + if events[n].Datagram? then [events[n].raw] else []
  }

  /** On every run, whatever the client sends and whenever the stages come: the control channel is
      sound and the media packets sent are a prefix of the one plan. */
  lemma {:induction false} EveryRunFine(c: GapCase, events: seq<Event>)
    ensures Fine(c, Served(c, events).gap, Datagrams(events), Served(c, events).ok)
    decreases |events|
  {
    hide Fine, Idle, Call;
    if events == [] {
      InitialFine(c);
    } else {
      var n := |events| - 1;
      EveryRunFine(c, events[..n]);
      var before := Served(c, events[..n]);
      var raws := Datagrams(events[..n]);
      if before.ok {
        match events[n]
        case Tick(stage) => IdleFine(c, before.gap, stage, raws);
        case Datagram(stage, raw) => CallFine(c, before.gap, stage, raws, raw);
      } else if events[n].Datagram? {
        FineExtends(c, before.gap, raws, events[n].raw);
      } else {
        assert Datagrams(events) == raws + [] == raws;
      }
    }
  }

  lemma InitialFine(c: GapCase)
    ensures Fine(c, FRESH, [], true)
  {
    hide Sound, Plan;
    InitialSound(c.common);
  }

  /** In particular no media packet is sent twice and none has id 3. */
  lemma NeverTwice(c: GapCase, events: seq<Event>, i: nat, j: nat)
    requires var media := Media(Served(c, events).gap.base.sent); i < |media| && j < |media|
    ensures var media := Media(Served(c, events).gap.base.sent);
            media[i].id != 3 && (media[i].id == media[j].id ==> i == j)
  {
    hide Sound, Served, Plan;
    EveryRunFine(c, events);
    var g := Served(c, events).gap;
    PlanIds(c, g.local, i);
    PlanIds(c, g.local, j);
  }

  // ------------------------------------------------------ what is in the plan

  function Clip(c: GapCase, start: nat, size: nat): Octets {
    WireFields.Slice(c.clip, start, size)
  }

  lemma BodySays(c: GapCase, fid: nat, sequence: nat, timestamp: nat, start: nat, size: nat, flags: byte)
    requires fid < 65536 && sequence < 65536 && timestamp < 0x1_0000_0000
    ensures VideoSays(Body(c, fid, sequence, timestamp, start, size, flags), fid, timestamp, sequence, flags,
                      Clip(c, start, size))
  {
    hide VideoHead, VideoSays;
    VideoReads(fid, timestamp, sequence, flags, Clip(c, start, size));
  }

  /** The frames of the plan, whole or put together, as a receiver reads them: ids, time stamps,
      sequence numbers, key-frame flags and the parts of the clip. */
  lemma PlanSays(c: GapCase, local: byte)
    ensures var p := Plan(c, local);
            && VideoSays(p[0].body + p[1].body, 23, 1000000, 0, 24, Clip(c, 0, 2204))
            && VideoSays(p[3].body, 25, 1010000, 2, 8, Clip(c, 2615, 425))
            && VideoSays(p[4].body, 26, 1030000, 3, 8, Clip(c, 3040, 486))
            && VideoSays(p[5].body + p[6].body, 29, 1040000, 4, 24, Clip(c, 4552, 1953))
            && VideoSays(p[7].body, 30, 1040100, 5, 8, Clip(c, 6505, 501))
  {
    BodySays(c, 23, 0, 1000000, 0, 2204, 24);
    BodySays(c, 25, 2, 1010000, 2615, 425, 8);
    BodySays(c, 26, 3, 1030000, 3040, 486, 8);
    BodySays(c, 29, 4, 1040000, 4552, 1953, 24);
    BodySays(c, 30, 5, 1040100, 6505, 501, 8);
    PlanFrames(c, local);
    PlanParts(c, local);
    hide VideoSays, Body;
    var p := Plan(c, local);
    assert p[3] == Fault(c, local)[1] && p[4] == Fault(c, local)[2] && p[7] == After(c, local)[0];
  }

  /** The packet headers of the plan: kinds by reliability, with heads that count their one
      continuation, and the stamp of their frame. */
  lemma PlanHeaders(c: GapCase, local: byte, i: nat)
    requires i < 8
    ensures var p, first := Plan(c, local)[i], i != 1 && i != 6;
            && p.kind == (if c.common.reliable then 5 else 3) + (if first then 0 else 1)
            && p.retry == 0 && p.remote == 7 && p.fragment == (if i == 0 || i == 2 || i == 5 then 1 else 0)
            && p.stamp == [1000000, 1000000, 1005000, 1010000, 1030000, 1040000, 1040000, 1040100][i]
  {
    hide Body, WireFields.Slice;
  }

  // ------------------------------------------------------- what is answered

  predicate Onwards(g: Gap, h: Gap) {
    && (g.seeded ==> h.seeded) && (g.sentKey ==> h.sentKey) && (g.sentPost ==> h.sentPost)
    && (g.base.started ==> h.base.started && h.local == g.local) && (g.base.stopped ==> h.base.stopped)
  }

  lemma RecoveryServes(c: GapCase, g: Gap)
    ensures var r := Recovery(c, g);
            && Onwards(g, r.gap) && r.gap.sentKey && r.gap.fedBack == g.fedBack && r.gap.base.started == g.base.started
            && (c.burst && !g.sentKey && r.ok ==> r.gap.sentPost)
  {
    hide Key, After;
  }

  /** A barrier that completes has done what its stage asks for. */
  lemma IdleServes(c: GapCase, g: Gap, stage: Stage)
    ensures var r := Idle(c, g, stage);
            && Onwards(g, r.gap) && r.gap.fedBack == g.fedBack && r.gap.base.started == g.base.started
            && (r.ok && stage == Seed ==> r.gap.seeded && (!g.seeded && c.common.reliable ==> r.gap.sentKey))
            && (r.ok && stage == PostKey ==> r.gap.sentPost)
            && (r.ok && stage == StopNow ==> r.gap.base.stopped)
  {
    hide Seeding, PostKeying, Stopping;
    SeedingServes(c, g, stage);
    var a := Seeding(c, g, stage);
    if a.ok {
      PostKeyingServes(c, a.gap, stage);
      StoppingServes(c, PostKeying(c, a.gap, stage).gap, stage);
    }
  }

  predicate Moves(g: Gap, h: Gap) {
    Onwards(g, h) && h.fedBack == g.fedBack && h.base.started == g.base.started
  }

  lemma SeedingServes(c: GapCase, g: Gap, stage: Stage)
    ensures var r := Seeding(c, g, stage);
            && Moves(g, r.gap)
            && (r.ok && stage == Seed ==> r.gap.seeded && (!g.seeded && c.common.reliable ==> r.gap.sentKey))
  {
    hide Recovery, Fault;
    RecoveryServes(c, SendAll(g.(seeded := true), Fault(c, g.local)));
  }

  lemma PostKeyingServes(c: GapCase, g: Gap, stage: Stage)
    ensures var r := PostKeying(c, g, stage);
            Moves(g, r.gap) && (r.ok && stage == PostKey ==> r.gap.sentPost)
  {
    hide After;
  }

  lemma StoppingServes(c: GapCase, g: Gap, stage: Stage)
    ensures var r := Stopping(c, g, stage);
            Moves(g, r.gap) && (r.ok && stage == StopNow ==> r.gap.base.stopped)
  {
    hide StopSecret;
  }

  lemma FeedbackServes(c: GapCase, g: Gap, raw: Octets, data: Octets)
    requires |data| > 4
    ensures var r := Feedback(c, g, raw, data);
            && Onwards(g, r.gap) && r.gap.base.started == g.base.started
            && (r.ok && !g.fedBack && data[4] == 3 && data[0] % 128 in {3, 8} && c.feedback(raw) ==>
                  r.gap.fedBack && (!c.common.reliable ==> r.gap.sentKey))
  {
    hide Recovery;
    RecoveryServes(c, g.(fedBack := true));
  }

  /** A datagram on the media channel that is the feedback expected. */
  predicate Expected(c: GapCase, raw: Octets) {
    && WithoutCrc(raw).Ok? && |WithoutCrc(raw).value| > 4
    && WithoutCrc(raw).value[4] == 3 && WithoutCrc(raw).value[0] % 128 in {3, 8} && c.feedback(raw)
  }

  /** A call that completes has answered a request to start, and the first expected feedback. */
  lemma CallServes(c: GapCase, g: Gap, stage: Stage, raw: Octets)
    ensures var r := Call(c, g, stage, raw);
            && Onwards(g, r.gap)
            && (r.ok && Type(raw) == Some(5) && WithoutCrc(raw).value[4] == 1 ==> r.gap.base.started)
            && (!g.base.started && r.gap.base.started ==> |raw| > 2 && r.gap.local == raw[2])
            && (r.ok && !g.fedBack && Expected(c, raw) ==> r.gap.fedBack && (!c.common.reliable ==> r.gap.sentKey))
  {
    IdleServes(c, g, stage);
    var idle := Idle(c, g, stage);
    hide Idle;
    if idle.ok {
      NegotiateUntouched(c.common, idle.gap.base, raw);
      var negotiated := Negotiating(c, idle.gap, raw);
      assert Onwards(idle.gap, negotiated.gap);
      ReactServes(c, negotiated.gap, raw);
      hide Negotiating, React;
    }
  }

  lemma ReactServes(c: GapCase, g: Gap, raw: Octets)
    ensures var r := React(c, g, raw);
            && Onwards(g, r.gap)
            && (r.ok && Type(raw) == Some(5) && WithoutCrc(raw).value[4] == 1 ==> r.gap.base.started)
            && (!g.base.started && r.gap.base.started ==> |raw| > 2 && r.gap.local == raw[2])
            && (r.ok && !g.fedBack && Expected(c, raw) ==> r.gap.fedBack && (!c.common.reliable ==> r.gap.sentKey))
  {
    StripKeepsKind(raw);
    TypedIsControl(raw);
    assert Type(raw).Some? ==> |WithoutCrc(raw).value| > 13 && WithoutCrc(raw).value[13] == Type(raw).value;
    hide WithoutCrc, Type, Feedback, First, StartSecret;
    if WithoutCrc(raw).Ok? && |WithoutCrc(raw).value| > 4 {
      FeedbackServes(c, g, raw, WithoutCrc(raw).value);
    }
  }
}
