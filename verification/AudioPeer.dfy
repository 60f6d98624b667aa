/** The peer that streams audio: a first frame on start, the rest at a barrier, or after the client
    has reported the frame left out. */
module AudioPeer {
  import opened Bytes
  import opened Crc32c
  import opened Peers
  import opened ControlChannel

  /** `Plain` stands for every profile that sends its frames in order. */
  datatype Profile = Plain | Repair | Drop | Blocked

  /** `ids` are the frame ids and `payload` gives the encoded frames. */
  datatype AudioCase = AudioCase(common: Case, profile: Profile, ids: seq<nat>, payload: nat -> Octets)

  /** Enough frames for the packets a profile names. */
  predicate ValidCase(c: AudioCase) {
    |c.ids| >= match c.profile case Plain => 1 case Repair => 3 case Blocked => 3 case Drop => 4
  }

  datatype Stage = Seed | Continuation | StopNow | Other

  datatype Audio = Audio(base: State, seeded: bool, recovered: bool, continued: bool, local: byte)

  const FRESH: Audio := Audio(INITIAL, false, false, false, 0)

  datatype AudioOutcome = AudioOutcome(audio: Audio, ok: bool)

  // ---------------------------------------------------------- what is sent

  function Stamp(c: AudioCase, pid: nat): nat {
    1000000 + pid * 655 + if c.profile == Drop && pid >= 3 then 20000 else 0
  }

  function Frame(c: AudioCase, local: byte, pid: nat, retry: byte): Packet
    requires pid < |c.ids|
  {
    var stamp := Stamp(c, pid);
    var body := FrameHead(c.ids[pid], stamp) + c.payload(pid);
    Packet(if c.common.reliable then 5 else 3, retry, 7, local, 3, 0, pid, stamp, body)
  }

  function Range(from: nat, until: nat): (ids: seq<nat>)
    ensures |ids| == if from < until then until - from else 0
    ensures forall i :: 0 <= i < |ids| ==> ids[i] == from + i
    decreases until - from
  {
    if from >= until then [] else Range(from, until - 1) + [until - 1]
  }

  predicate Known(c: AudioCase, ids: seq<nat>) {
    forall i :: 0 <= i < |ids| ==> ids[i] < |c.ids|
  }

  /** The packets of these ids. Only packet 1 of the repair profile is a retry. */
  function Frames(c: AudioCase, local: byte, ids: seq<nat>): (frames: seq<Packet>)
    requires Known(c, ids)
    ensures |frames| == |ids|
    ensures forall i :: 0 <= i < |frames| ==> frames[i].channel == 3 && frames[i].id == ids[i]
  {
    seq(|ids|, i requires 0 <= i < |ids| =>
          Frame(c, local, ids[i], if c.profile == Repair && ids[i] == 1 then 1 else 0))
  }

  lemma FramesBoth(c: AudioCase, local: byte, a: seq<nat>, b: seq<nat>)
    requires Known(c, a) && Known(c, b)
    ensures Known(c, a + b) && Frames(c, local, a + b) == Frames(c, local, a) + Frames(c, local, b)
  {
    hide Frame;
  }

  lemma OneFrame(c: AudioCase, local: byte, pid: nat)
    requires pid < |c.ids|
    ensures Frames(c, local, [pid]) == [Frame(c, local, pid, if c.profile == Repair && pid == 1 then 1 else 0)]
  {}

  function SeedIds(c: AudioCase): (ids: seq<nat>)
    requires ValidCase(c)
    ensures Known(c, ids)
  {
    if c.profile == Plain then Range(1, |c.ids|) else [2]
  }

  function ReportIds(c: AudioCase): (ids: seq<nat>)
    requires ValidCase(c)
    ensures Known(c, ids)
  {
    match c.profile
    case Repair => [1] + Range(3, |c.ids|)
    case Drop => [3]
    case _ => []
  }

  // ------------------------------------------------------------------ steps

  function SendAll(a: Audio, packets: seq<Packet>): Audio {
    a.(base := Stream(a.base, packets))
  }

  /** `on_idle` */
  function Idle(c: AudioCase, a: Audio, stage: Stage): AudioOutcome
    requires ValidCase(c)
  {
    if stage == Continuation && !a.continued then
      if c.profile != Drop || !a.recovered then AudioOutcome(a, false)
      else AudioOutcome(SendAll(a.(continued := true), Frames(c, a.local, Range(4, |c.ids|))), true)
    else if stage == Seed && a.base.started && !a.seeded then
      AudioOutcome(SendAll(a.(seeded := true), Frames(c, a.local, SeedIds(c))), true)
    else if stage == StopNow && !a.base.stopped && a.base.started then
      AudioOutcome(a.(base := DoStop(c.common, a.base, a.local)), true)
    else AudioOutcome(a, true)
  }

  /** Whether the datagram reports that packet 1 is missing after packet 2. */
  function Reports(c: AudioCase, data: Octets): Result<bool>
    requires data != []
  {
    if |data| <= 4 then Raised
    else if data[4] != 3 || data[0] % 128 != (if c.common.reliable then 8 else 10) then Ok(false)
    else if |data| < 9 then Raised
    else Ok(U16(data, 7) == 2 && |data| == 20 && data[17..] == [0, 0, 1])
  }

  function Recovering(c: AudioCase, a: Audio, data: Octets): AudioOutcome
    requires ValidCase(c) && data != []
  {
    if a.seeded && !a.recovered && c.profile != Plain then
      match Reports(c, data)
      case Raised => AudioOutcome(a, false)
      case Ok(reported) =>
        AudioOutcome(if reported then SendAll(a.(recovered := true), Frames(c, a.local, ReportIds(c))) else a, true)
    else AudioOutcome(a, true)
  }

  function Starting(c: AudioCase, a: Audio, local: byte): Audio
    requires ValidCase(c)
  {
    SendAll(a.(base := DoStart(c.common, a.base, local), local := local), Frames(c, local, [0]))
  }

  function Negotiating(c: AudioCase, a: Audio, raw: Octets): AudioOutcome {
    var n := Negotiate(c.common, a.base, raw);
    AudioOutcome(a.(base := n.state), n.ok)
  }

  function React(c: AudioCase, a: Audio, raw: Octets): AudioOutcome
    requires ValidCase(c)
  {
    match WithoutCrc(raw)
    case Raised => AudioOutcome(a, false)
    case Ok(data) =>
      if data == [] then AudioOutcome(a, false)
      else
        StripKeepsKind(raw);
        Recovering(c, if Starts(a.base, data) then Starting(c, a, raw[2]) else a, data)
  }

  /** `__call__` */
  function Call(c: AudioCase, a: Audio, stage: Stage, raw: Octets): AudioOutcome
    requires ValidCase(c)
  {
    var idle := Idle(c, a, stage);
    if !idle.ok then idle
    else
      var negotiated := Negotiating(c, idle.audio, raw);
      if !negotiated.ok then negotiated else React(c, negotiated.audio, raw)
  }

  // ----------------------------------------------------------------- the peer

  class Peer {
    const c: AudioCase
    const base: Peers.Peer
    var seeded: bool
    var recovered: bool
    var continued: bool
    var local: byte

    function Now(): Audio
      reads this, base
    {
      Audio(base.Now(), seeded, recovered, continued, local)
    }

    constructor (c: AudioCase)
      ensures this.c == c && base.c == c.common && fresh(base) && Now() == FRESH
    {
      this.c := c;
      base := new Peers.Peer(c.common);
      seeded, recovered, continued, local := false, false, false, 0;
    }

    /** `media(pid)` for each of a range. */
    method SendFrames(from: nat, until: nat)
      requires until <= |c.ids| && (c.profile == Repair ==> from > 1)
      modifies base
      ensures Now() == SendAll(old(Now()), Frames(c, local, Range(from, until)))
    {
      hide Frame, Frames;
      if from < until {
        ghost var before := base.Now();
        for pid := from to until
          invariant base.Now() == Stream(before, Frames(c, local, Range(from, pid)))
        {
          base.Transmit(Frame(c, local, pid, 0));
          OneFrame(c, local, pid);
          FramesBoth(c, local, Range(from, pid), [pid]);
        }
      }
    }

    method OnIdle(stage: Stage) returns (ok: bool)
      requires ValidCase(c) && base.c == c.common
      modifies this, base
      ensures AudioOutcome(Now(), ok) == Idle(c, old(Now()), stage)
    {
      hide Frame, Frames, StopSecret;
      if stage == Continuation && !continued {
        if c.profile != Drop || !recovered {
          return false;
        }
        continued := true;
        SendFrames(4, |c.ids|);
      }
      if stage == Seed && base.started && !seeded {
        seeded := true;
        if c.profile == Plain {
          SendFrames(1, |c.ids|);
        } else {
          base.Transmit(Frame(c, local, 2, 0));
          OneFrame(c, local, 2);
        }
      }
      if stage == StopNow && !base.stopped && base.started {
        base.SendStop(local);
      }
      ok := true;
    }

    method Recover()
      requires ValidCase(c) && base.c == c.common
      modifies base
      ensures Now() == SendAll(old(Now()), Frames(c, local, ReportIds(c)))
    {
      hide Frame, Frames;
      match c.profile {
        case Repair =>
          base.Transmit(Frame(c, local, 1, 1));
          OneFrame(c, local, 1);
          SendFrames(3, |c.ids|);
          FramesBoth(c, local, [1], Range(3, |c.ids|));
        case Drop =>
          base.Transmit(Frame(c, local, 3, 0));
          OneFrame(c, local, 3);
        case _ =>
      }
    }

    method Heed(data: Octets) returns (ok: bool)
      requires ValidCase(c) && base.c == c.common && data != []
      modifies this, base
      ensures AudioOutcome(Now(), ok) == Recovering(c, old(Now()), data)
    {
      hide Frames, ReportIds;
      ok := true;
      if seeded && !recovered && c.profile != Plain {
        var reported := Reports(c, data);
        if reported.Raised? {
          return false;
        }
        hide Reports;
        if reported.value {
          recovered := true;
          Recover();
        }
      }
    }

    method Start(at: byte)
      requires ValidCase(c) && base.c == c.common
      modifies this, base
      ensures Now() == Starting(c, old(Now()), at)
    {
      hide Frame, StartSecret;
      local := at;
      base.SendStart(at);
      base.Transmit(Frame(c, local, 0, 0));
    }

    method Receive(raw: Octets, stage: Stage) returns (ok: bool)
      requires ValidCase(c) && base.c == c.common
      modifies this, base
      ensures AudioOutcome(Now(), ok) == Call(c, old(Now()), stage, raw)
    {
      hide Idle, Recovering, Starting, WithoutCrc, Negotiate;
      ok := OnIdle(stage);
      if !ok {
        return;
      }
      ok := base.CallNegotiate(raw);
      if !ok {
        return;
      }
      var stripped := StripCrc(raw);
      if stripped.Raised? || stripped.value == [] {
        return false;
      }
      if Starts(base.Now(), stripped.value) {
        StripKeepsKind(raw);
        Start(raw[2]);
      }
      ok := Heed(stripped.value);
    }

    /** The serving loop: events up to the first exception. */
    method Serve(events: seq<Event>) returns (ok: bool)
      requires Now() == FRESH && ValidCase(c) && base.c == c.common
      modifies this, base
      ensures AudioOutcome(Now(), ok) == Served(c, events)
    {
      hide Idle, Call;
      ok := true;
      for n := 0 to |events|
        invariant ok && AudioOutcome(Now(), ok) == Served(c, events[..n])
      {
        assert events[..n + 1][..n] == events[..n];
        match events[n] {
          case Tick(stage) => ok := OnIdle(stage);
          case Datagram(stage, raw) => ok := Receive(raw, stage);
        }
        if !ok {
          BrokenOff(c, events, n + 1);
          return;
        }
      }
      assert events[..|events|] == events;
    }
  }

  // ---------------------------------------------------------------- the plan

  /** The packet ids the flags stand for. */
  function Ids(c: AudioCase, a: Audio): (ids: seq<nat>)
    requires ValidCase(c)
    ensures Known(c, ids)
  {
    (if a.base.started then [0] else []) + (if a.seeded then SeedIds(c) else [])
    + (if a.recovered then ReportIds(c) else []) + (if a.continued then Range(4, |c.ids|) else [])
  }

  /** Which flags can be set, and in what order. */
  predicate Chained(c: AudioCase, a: Audio) {
    && (a.seeded ==> a.base.started) && (a.recovered ==> a.seeded && c.profile != Plain)
    && (a.continued ==> a.recovered && c.profile == Drop)
  }

  predicate OnPlan(c: AudioCase, a: Audio)
    requires ValidCase(c)
  {
    Chained(c, a) && Media(a.base.sent) == Frames(c, a.local, Ids(c, a))
  }

  /** Frames go out in order, but for packet 1 when it is repaired. */
  lemma IdsInOrder(c: AudioCase, a: Audio, i: nat, j: nat)
    requires ValidCase(c) && Chained(c, a) && i < j < |Ids(c, a)|
    ensures Ids(c, a)[i] < Ids(c, a)[j] || (c.profile == Repair && Ids(c, a)[i] == 2 && Ids(c, a)[j] == 1)
  {
    IdAt(c, a, i);
    IdAt(c, a, j);
    hide Ids;
  }

  /** The id in each place: packet 1 changes places with 2 when it is repaired and is skipped when
      it is not. */
  lemma IdAt(c: AudioCase, a: Audio, k: nat)
    requires ValidCase(c) && Chained(c, a) && k < |Ids(c, a)|
    ensures Ids(c, a)[k] ==
            match c.profile
            case Plain => k
            case Repair => if k == 1 then 2 else if k == 2 then 1 else k
            case _ => if k == 0 then 0 else k + 1
  {}

  /** Once the last flag of a profile is set, every packet has been sent but the one dropped. */
  lemma AllSent(c: AudioCase, a: Audio, pid: nat)
    requires ValidCase(c) && Chained(c, a) && pid < |c.ids|
    requires match c.profile
             case Plain => a.seeded
             case Repair => a.recovered
             case Drop => a.continued
             case Blocked => false
    ensures pid in Ids(c, a) <==> !(c.profile == Drop && pid == 1)
  {
    match c.profile
    case Plain => assert Ids(c, a)[pid] == pid;
    case Repair => assert Ids(c, a)[if pid == 1 then 2 else if pid == 2 then 1 else pid] == pid;
    case Drop => assert pid != 1 ==> Ids(c, a)[if pid == 0 then 0 else pid - 1] == pid;
  }

  // ---------------------------------------------------------------- every run

  ghost predicate Fine(c: AudioCase, a: Audio, raws: seq<Octets>, ok: bool)
    requires ValidCase(c)
  {
    Sound(c.common, a.base, raws, ok) && OnPlan(c, a)
  }

  lemma BreaksOff(c: AudioCase, a: Audio, raws: seq<Octets>)
    requires ValidCase(c) && Fine(c, a, raws, true)
    ensures Fine(c, a, raws, false)
  {
    hide Sound;
    SoundAnyway(c.common, a.base, raws);
  }

  /** Sending what a flag newly set stands for. */
  lemma Advances(c: AudioCase, a: Audio, b: Audio, ids: seq<nat>, raws: seq<Octets>)
    requires ValidCase(c) && Fine(c, a, raws, true) && b.base == a.base && b.local == a.local
    requires Chained(c, b) && Known(c, ids) && Ids(c, b) == Ids(c, a) + ids
    ensures Fine(c, SendAll(b, Frames(c, a.local, ids)), raws, true)
  {
    hide Sound, Media, SeedIds, ReportIds, Range;
    FramesBoth(c, a.local, Ids(c, a), ids);
    StreamSound(c.common, a.base, raws, Frames(c, a.local, ids));
    StreamMedia(a.base, Frames(c, a.local, ids));
  }

  lemma StopFine(c: AudioCase, a: Audio, raws: seq<Octets>)
    requires ValidCase(c) && Fine(c, a, raws, true) && !a.base.stopped
    ensures Fine(c, a.(base := DoStop(c.common, a.base, a.local)), raws, true)
  {
    hide Sound, Media, StopSecret, Frames, SeedIds, ReportIds, Range;
    StopSound(c.common, a.base, raws, a.local);
    SendMedia(a.base, Control(a.local, 5, StopSecret(c.common)));
  }

  lemma IdleFine(c: AudioCase, a: Audio, stage: Stage, raws: seq<Octets>)
    requires ValidCase(c) && Fine(c, a, raws, true)
    ensures Fine(c, Idle(c, a, stage).audio, raws, Idle(c, a, stage).ok)
  {
    BreaksOff(c, a, raws);
    hide Sound, Media, Stream, DoStop, Frames, SeedIds, ReportIds, Range;
    if stage == Continuation && !a.continued {
      if c.profile == Drop && a.recovered {
        Advances(c, a, a.(continued := true), Range(4, |c.ids|), raws);
      }
    } else if stage == Seed && a.base.started && !a.seeded {
      Advances(c, a, a.(seeded := true), SeedIds(c), raws);
    } else if stage == StopNow && !a.base.stopped && a.base.started {
      StopFine(c, a, raws);
    }
  }

  lemma RecoveringFine(c: AudioCase, a: Audio, raws: seq<Octets>, data: Octets)
    requires ValidCase(c) && Fine(c, a, raws, true) && data != []
    ensures Fine(c, Recovering(c, a, data).audio, raws, Recovering(c, a, data).ok)
  {
    BreaksOff(c, a, raws);
    hide Sound, Media, Stream, Reports, Frames, SeedIds, ReportIds, Range;
    if a.seeded && !a.recovered && c.profile != Plain {
      Advances(c, a, a.(recovered := true), ReportIds(c), raws);
    }
  }

  lemma StartingFine(c: AudioCase, a: Audio, raws: seq<Octets>, local: byte)
    requires ValidCase(c) && Fine(c, a, raws, true)
    requires !a.base.started && raws != [] && Type(raws[|raws| - 1]) == Some(5)
    ensures Fine(c, Starting(c, a, local), raws, true)
  {
    var started := DoStart(c.common, a.base, local);
    hide Sound, Media, StartSecret, Type, Frames, SeedIds, ReportIds, Range;
    StartSound(c.common, a.base, raws, local);
    SendMedia(a.base, Control(local, 4, StartSecret(c.common)));
    StreamSound(c.common, started, raws, Frames(c, local, [0]));
    StreamMedia(started, Frames(c, local, [0]));
    assert Ids(c, a) == [] && Ids(c, Starting(c, a, local)) == [0];
  }

  lemma NegotiatingFine(c: AudioCase, a: Audio, raws: seq<Octets>, raw: Octets)
    requires ValidCase(c) && Fine(c, a, raws, true)
    ensures Fine(c, Negotiating(c, a, raw).audio, raws + [raw], Negotiating(c, a, raw).ok)
  {
    hide Sound, Media, Negotiate, Frames, SeedIds, ReportIds, Range;
    NegotiateSound(c.common, a.base, raws, raw);
    NegotiateUntouched(c.common, a.base, raw);
  }

  lemma ReactFine(c: AudioCase, a: Audio, raws: seq<Octets>, raw: Octets)
    requires ValidCase(c) && Fine(c, a, raws, true) && raws != [] && raws[|raws| - 1] == raw
    ensures Fine(c, React(c, a, raw).audio, raws, React(c, a, raw).ok)
  {
    hide Fine, Recovering, Starting, WithoutCrc, Type;
    BreaksOff(c, a, raws);
    if WithoutCrc(raw).Ok? && WithoutCrc(raw).value != [] {
      var data := WithoutCrc(raw).value;
      StripKeepsKind(raw);
      if Starts(a.base, data) {
        StartingFine(c, a, raws, raw[2]);
        RecoveringFine(c, Starting(c, a, raw[2]), raws, data);
      } else {
        RecoveringFine(c, a, raws, data);
      }
    }
  }

  lemma CallFine(c: AudioCase, a: Audio, stage: Stage, raws: seq<Octets>, raw: Octets)
    requires ValidCase(c) && Fine(c, a, raws, true)
    ensures Fine(c, Call(c, a, stage, raw).audio, raws + [raw], Call(c, a, stage, raw).ok)
  {
    hide Fine, Idle, Negotiating, React;
    IdleFine(c, a, stage, raws);
    var idle := Idle(c, a, stage);
    if idle.ok {
      NegotiatingFine(c, idle.audio, raws, raw);
      var negotiated := Negotiating(c, idle.audio, raw);
      if negotiated.ok {
        ReactFine(c, negotiated.audio, raws + [raw], raw);
      }
    } else {
      FineExtends(c, idle.audio, raws, raw);
    }
  }

  lemma FineExtends(c: AudioCase, a: Audio, raws: seq<Octets>, raw: Octets)
    requires ValidCase(c) && Fine(c, a, raws, false)
    ensures Fine(c, a, raws + [raw], false)
  {
    hide Sound;
    SoundExtends(c.common, a.base, raws, raw);
  }

  datatype Event = Tick(stage: Stage) | Datagram(stage: Stage, raw: Octets)

  /** Any run, up to the first exception. */
  function Served(c: AudioCase, events: seq<Event>): AudioOutcome
    requires ValidCase(c)
  {
    if events == [] then AudioOutcome(FRESH, true)
    else
      var n := |events| - 1;
      var before := Served(c, events[..n]);
      if !before.ok then before
      else
        match events[n]
        case Tick(stage) => Idle(c, before.audio, stage)
        case Datagram(stage, raw) => Call(c, before.audio, stage, raw)
  }

  lemma {:induction false} BrokenOff(c: AudioCase, events: seq<Event>, n: nat)
    requires ValidCase(c) && n <= |events| && !Served(c, events[..n]).ok
    ensures Served(c, events) == Served(c, events[..n])
    decreases |events|
  {
    hide Idle, Call;
    if n < |events| {
      var before := events[..|events| - 1];
      assert before[..n] == events[..n];
      BrokenOff(c, before, n);
    } else {
      assert events[..n] == events;
    }
  }

  function Datagrams(events: seq<Event>): seq<Octets> {
    if events == [] then []
    else
      var n := |events| - 1;
      Datagrams(events[..n]) + if events[n].Datagram? then [events[n].raw] else []
  }

  /** On every run the control channel is sound and the media packets sent are what the flags stand
      for, in plan order. */
  lemma {:induction false} EveryRunFine(c: AudioCase, events: seq<Event>)
    requires ValidCase(c)
    ensures Fine(c, Served(c, events).audio, Datagrams(events), Served(c, events).ok)
    decreases |events|
  {
    hide Fine, Idle, Call;
    if events == [] {
      InitialFine(c);
    } else {
      var n := |events| - 1;
      EveryRunFine(c, events[..n]);
      var before := Served(c, events[..n]);
      var raws := Datagrams(events[..n]);
      if before.ok {
        match events[n]
        case Tick(stage) => IdleFine(c, before.audio, stage, raws);
        case Datagram(stage, raw) => CallFine(c, before.audio, stage, raws, raw);
      } else if events[n].Datagram? {
        FineExtends(c, before.audio, raws, events[n].raw);
      } else {
        assert Datagrams(events) == raws + [] == raws;
      }
    }
  }

  lemma InitialFine(c: AudioCase)
    requires ValidCase(c)
    ensures Fine(c, FRESH, [], true)
  {
    hide Sound;
    InitialSound(c.common);
  }

  /** So no media packet is sent twice, and packet 1 is sent late or not at all where the profile
      says so. */
  lemma NeverTwice(c: AudioCase, events: seq<Event>, i: nat, j: nat)
    requires ValidCase(c) && i < j < |Media(Served(c, events).audio.base.sent)|
    ensures var media := Media(Served(c, events).audio.base.sent);
            || media[i].id < media[j].id
            || (c.profile == Repair && media[i].id == 2 && media[j].id == 1 && media[j].retry == 1)
  {
    hide Served, Sound, Ids, Media;
    EveryRunFine(c, events);
    IdsInOrder(c, Served(c, events).audio, i, j);
  }

  // ------------------------------------------------- what is in the frames

  /** The packet of a frame as a receiver reads it. */
  predicate Holds(c: AudioCase, p: Packet, local: byte) {
    && p.id < |c.ids| && p.remote == 7 && p.local == local && p.channel == 3 && p.fragment == 0
    && var stamp := 1000000 + 655 * p.id + if c.profile == Drop && p.id >= 3 then 20000 else 0;
       && p.stamp == stamp && p.kind == (if c.common.reliable then 5 else 3)
       && FrameSays(p.body, c.ids[p.id], stamp) && p.body[13..] == c.payload(p.id)
  }

  lemma FrameHolds(c: AudioCase, local: byte, id: nat, retry: byte)
    requires id < |c.ids| && c.ids[id] < 65536 && 1020000 + 655 * id < 0x1_0000_0000
    ensures Holds(c, Frame(c, local, id, retry), local)
  {
    hide FrameHead, FrameSays;
    FrameReads(c.ids[id], Stamp(c, id), c.payload(id));
  }

  lemma FramesHold(c: AudioCase, local: byte, ids: seq<nat>, i: nat)
    requires Known(c, ids) && i < |ids|
    requires forall k :: 0 <= k < |c.ids| ==> c.ids[k] < 65536 && 1020000 + 655 * k < 0x1_0000_0000
    ensures Holds(c, Frames(c, local, ids)[i], local)
  {
    hide Holds, Frame;
    FrameHolds(c, local, ids[i], if c.profile == Repair && ids[i] == 1 then 1 else 0);
  }

  /** On every run each media packet holds the frame of its id: the frame's own id, a time stamp 655
      on from the one before, 20000 more from the third on in the drop profile, and the payload. */
  lemma EveryFrameHolds(c: AudioCase, events: seq<Event>, i: nat)
    requires ValidCase(c) && i < |Media(Served(c, events).audio.base.sent)|
    requires forall k :: 0 <= k < |c.ids| ==> c.ids[k] < 65536 && 1020000 + 655 * k < 0x1_0000_0000
    ensures var a := Served(c, events).audio;
            Holds(c, Media(a.base.sent)[i], a.local)
  {
    hide Served, Sound, Media, Holds, Ids, Frames;
    EveryRunFine(c, events);
    var a := Served(c, events).audio;
    FramesHold(c, a.local, Ids(c, a), i);
  }

  /** The report by its octets: 20 of them, on channel 3, of the kind the case uses, with 2 at place
      7 and 0, 0, 1 at the end. */
  lemma ReportsByOctets(c: AudioCase, data: Octets)
    requires data != []
    ensures Reports(c, data) == Ok(true)
       <==> && |data| == 20 && data[4] == 3 && data[0] % 128 == (if c.common.reliable then 8 else 10)
            && data[7] == 2 && data[8] == 0 && data[17] == 0 && data[18] == 0 && data[19] == 1
  {
    if |data| == 20 {
      TwoOctets(data, 7);
      var end := data[17..];
      assert end == [data[17], data[18], data[19]];
    }
    hide FromLittleEndian;
  }

  // ------------------------------------------------------- what is answered

  predicate Onwards(a: Audio, b: Audio) {
    && (a.seeded ==> b.seeded) && (a.recovered ==> b.recovered) && (a.continued ==> b.continued)
    && (a.base.started ==> b.base.started && b.local == a.local) && (a.base.stopped ==> b.base.stopped)
  }

  /** A barrier that completes has done what its stage asks for. */
  lemma IdleServes(c: AudioCase, a: Audio, stage: Stage)
    requires ValidCase(c)
    ensures var r := Idle(c, a, stage);
            && Onwards(a, r.audio) && r.audio.base.started == a.base.started
            && (r.ok && stage == Continuation ==> r.audio.continued)
            && (r.ok && stage == Seed && a.base.started ==> r.audio.seeded)
            && (r.ok && stage == StopNow && a.base.started ==> r.audio.base.stopped)
  {
    hide Frames, SeedIds, StopSecret, Secret;
  }

  predicate Reported(c: AudioCase, raw: Octets) {
    && WithoutCrc(raw).Ok? && WithoutCrc(raw).value != []
    && Reports(c, WithoutCrc(raw).value) == Ok(true)
  }

  /** A call that completes has answered a request to start, and the report of the packet left out. */
  lemma CallServes(c: AudioCase, a: Audio, stage: Stage, raw: Octets)
    requires ValidCase(c)
    ensures var r := Call(c, a, stage, raw);
            && Onwards(a, r.audio)
            && (r.ok && Type(raw) == Some(5) && WithoutCrc(raw).value[4] == 1 ==> r.audio.base.started)
            && (!a.base.started && r.audio.base.started ==> |raw| > 2 && r.audio.local == raw[2])
            && (r.ok && a.seeded && c.profile != Plain && Reported(c, raw) ==> r.audio.recovered)
  {
    IdleServes(c, a, stage);
    var idle := Idle(c, a, stage);
    hide Idle;
    if idle.ok {
      NegotiateUntouched(c.common, idle.audio.base, raw);
      var negotiated := Negotiating(c, idle.audio, raw);
      assert Onwards(idle.audio, negotiated.audio);
      ReactServes(c, negotiated.audio, raw);
      hide Negotiating, React;
    }
  }

  lemma ReactServes(c: AudioCase, a: Audio, raw: Octets)
    requires ValidCase(c)
    ensures var r := React(c, a, raw);
            && Onwards(a, r.audio)
            && (r.ok && Type(raw) == Some(5) && WithoutCrc(raw).value[4] == 1 ==> r.audio.base.started)
            && (!a.base.started && r.audio.base.started ==> |raw| > 2 && r.audio.local == raw[2])
            && (r.ok && a.seeded && c.profile != Plain && Reported(c, raw) ==> r.audio.recovered)
  {
    StripKeepsKind(raw);
    TypedIsControl(raw);
    assert Type(raw).Some? ==> |WithoutCrc(raw).value| > 13 && WithoutCrc(raw).value[13] == Type(raw).value;
    hide WithoutCrc, Type, Frames, Reports, StartSecret, ReportIds;
  }

  /** How many packets the flags stand for, by profile. */
  lemma IdsCount(c: AudioCase, a: Audio)
    requires ValidCase(c) && Chained(c, a)
    ensures |Ids(c, a)|
         == if !a.base.started then 0
            else if !a.seeded then 1
            else match c.profile
                 case Plain => |c.ids|
                 case Repair => if a.recovered then |c.ids| else 2
                 case Drop => if a.continued then |c.ids| - 1 else if a.recovered then 3 else 2
                 case Blocked => 2
  {}
}
