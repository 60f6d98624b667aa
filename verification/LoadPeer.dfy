/** The peer that cuts generated frames into packets and sends them at a steady rate. */
module LoadPeer {
  import opened Bytes
  import opened Crc32c
  import opened Peers
  import opened ControlChannel
  import opened Pacing

  /** `aus` are the six access units of the clip. */
  datatype LoadCase = LoadCase(common: Case, frames: nat, rate: nat, aus: seq<Octets>, clock: Clock)

  /** The fields of a packet hold its numbers. */
  ghost predicate ValidCase(c: LoadCase) {
    && c.rate > 0 && |c.aus| == 6 && Forward(c.clock)
    && c.frames <= 65436 && |Frames(c, 0, c.frames)| <= 65536
  }

  datatype Stage = StartNow | StopNow | Other

  /** `ticks` counts the readings of the clock. */
  datatype Load = Load(base: State, begin: Option<real>, next: nat, pid: nat, ticks: nat, local: byte)

  const FRESH: Load := Load(INITIAL, None, 0, 0, 0, 0)

  datatype LoadOutcome = LoadOutcome(load: Load, ok: bool)

  // ---------------------------------------------------------------- packets

  function Stamp(index: nat): nat {
    1000000 + index * 1092
  }

  function Body(c: LoadCase, index: nat): (body: Octets)
    requires |c.aus| == 6
    ensures |body| >= 20
  {
    VideoHead(100 + index, Stamp(index), index, if index % 6 == 0 then 24 else 8) + c.aus[index % 6]
  }

  /** `[body[k : k + 1200] for k in range(0, len(body), 1200)]` */
  function Chunks(body: Octets): (chunks: seq<Octets>)
    ensures forall i :: 0 <= i < |chunks| ==> 1 <= |chunks[i]| <= 1200
    ensures forall i :: 0 <= i < |chunks| - 1 ==> |chunks[i]| == 1200
    ensures body != [] ==> chunks != []
  {
    if body == [] then []
    else if |body| <= 1200 then [body]
    else [body[..1200]] + Chunks(body[1200..])
  }

  lemma ChunkAt(body: Octets, k: nat)
    requires k < |body|
    ensures Chunks(body[k..])
         == if k + 1200 < |body| then [body[k..k + 1200]] + Chunks(body[k + 1200..]) else [body[k..]]
  {
    if k + 1200 < |body| {
      assert body[k..][..1200] == body[k..k + 1200] && body[k..][1200..] == body[k + 1200..];
    }
  }

  lemma Regroup(a: seq<Octets>, b: Octets, c: seq<Octets>)
    ensures a + [b] + c == a + ([b] + c) && a + [b] + [] == a + [b]
  {}

  function FramePacket(c: LoadCase, local: byte, index: nat, chunks: seq<Octets>, id: nat, j: nat): (p: Packet)
    requires j < |chunks|
    ensures p.channel == 3 && p.id == id && p.body == chunks[j]
  {
    Packet(if j == 0 then 3 else 4, 0, 7, local, 3, if j == 0 then |chunks| - 1 else 0, id, Stamp(index), chunks[j])
  }

  function ChunkPackets(c: LoadCase, local: byte, index: nat, chunks: seq<Octets>, pid: nat): (packets: seq<Packet>)
    ensures |packets| == |chunks|
    ensures forall j :: 0 <= j < |chunks| ==> packets[j] == FramePacket(c, local, index, chunks, pid + j, j)
  {
    seq(|chunks|, j requires 0 <= j < |chunks| => FramePacket(c, local, index, chunks, pid + j, j))
  }

  /** The packets of one frame, the first with id `pid`. */
  function FramePackets(c: LoadCase, local: byte, index: nat, pid: nat): (packets: seq<Packet>)
    requires |c.aus| == 6
    ensures forall j :: 0 <= j < |packets| ==> packets[j].channel == 3
  {
    ChunkPackets(c, local, index, Chunks(Body(c, index)), pid)
  }

  /** The packets of the first `n` frames. */
  function Frames(c: LoadCase, local: byte, n: nat): (packets: seq<Packet>)
    requires |c.aus| == 6
    ensures forall j :: 0 <= j < |packets| ==> packets[j].channel == 3
  {
    if n == 0 then []
    else
      var before := Frames(c, local, n - 1);
      before + FramePackets(c, local, n - 1, |before|)
  }

  // ------------------------------------------------------------------ steps

  function SendFrame(c: LoadCase, s: Load): (t: Load)
    requires |c.aus| == 6
    ensures t.next == s.next + 1 && t.begin == s.begin && t.ticks == s.ticks
  {
    var packets := FramePackets(c, s.local, s.next, s.pid);
    s.(base := Stream(s.base, packets), next := s.next + 1, pid := s.pid + |packets|)
  }

  /** The loop, which reads the clock in its condition and once more after each frame. */
  function Produce(c: LoadCase, s: Load): Load
    requires c.rate > 0 && |c.aus| == 6 && s.begin.Some?
    decreases c.frames - s.next
  {
    if s.next >= c.frames then s
    else if !Due(c.clock, s.ticks, s.begin.value, s.next, c.rate) then s.(ticks := s.ticks + 1)
    else Produce(c, SendFrame(c, s).(ticks := s.ticks + 2))
  }

  function Beginning(c: LoadCase, s: Load, stage: Stage): Load {
    if stage == StartNow && s.begin.None? then s.(begin := Some(c.clock(s.ticks)), ticks := s.ticks + 1) else s
  }

  function Ending(c: Case, s: Load, stage: Stage): Load {
    if stage == StopNow && !s.base.stopped then s.(base := DoStop(c, s.base, s.local)) else s
  }

  /** `on_idle` */
  function Idle(c: LoadCase, s: Load, stage: Stage): Load
    requires c.rate > 0 && |c.aus| == 6
  {
    if !s.base.started then s
    else
      var begun := Beginning(c, s, stage);
      var produced := if begun.begin.Some? && !s.base.stopped then Produce(c, begun) else begun;
      Ending(c.common, produced, stage)
  }

  function Negotiating(c: Case, s: Load, raw: Octets): LoadOutcome {
    var n := Negotiate(c, s.base, raw);
    LoadOutcome(s.(base := n.state), n.ok)
  }

  function React(c: Case, s: Load, raw: Octets): LoadOutcome {
    match WithoutCrc(raw)
    case Raised => LoadOutcome(s, false)
    case Ok(data) =>
      if data == [] then LoadOutcome(s, false)
      else
        StripKeepsKind(raw);
        LoadOutcome(if Starts(s.base, data) then s.(base := DoStart(c, s.base, raw[2]), local := raw[2]) else s, true)
  }

  /** `__call__` */
  function Call(c: LoadCase, s: Load, stage: Stage, raw: Octets): LoadOutcome
    requires c.rate > 0 && |c.aus| == 6
  {
    var negotiated := Negotiating(c.common, Idle(c, s, stage), raw);
    if !negotiated.ok then negotiated else React(c.common, negotiated.load, raw)
  }

  // ----------------------------------------------------------------- the peer

  class Peer {
    const c: LoadCase
    const base: Peers.Peer
    var begin: Option<real>
    var next: nat
    var pid: nat
    var ticks: nat
    var local: byte

    function Now(): Load
      reads this, base
    {
      Load(base.Now(), begin, next, pid, ticks, local)
    }

    constructor (c: LoadCase)
      ensures this.c == c && base.c == c.common && fresh(base) && Now() == FRESH
    {
      this.c := c;
      base := new Peers.Peer(c.common);
      begin, next, pid, ticks, local := None, 0, 0, 0, 0;
    }

    method ReadClock() returns (t: real)
      modifies this`ticks
      ensures t == c.clock(old(ticks)) && ticks == old(ticks) + 1
    {
      t := c.clock(ticks);
      ticks := ticks + 1;
    }

    method SplitBody(body: Octets) returns (chunks: seq<Octets>)
      ensures chunks == Chunks(body)
    {
      assert body == [] ==> Chunks(body) == [];
      hide Chunks;
      chunks := [];
      var k := 0;
      assert body[0..] == body;
      while k < |body|
        invariant 0 <= k
        invariant chunks + (if k < |body| then Chunks(body[k..]) else []) == Chunks(body)
        decreases |body| - k
      {
        var chunk := if k + 1200 < |body| then body[k..k + 1200] else body[k..];
        ChunkAt(body, k);
        Regroup(chunks, chunk, if k + 1200 < |body| then Chunks(body[k + 1200..]) else []);
        chunks := chunks + [chunk];
        k := k + 1200;
      }
    }

    method SendOne()
      requires base.c == c.common && |c.aus| == 6
      modifies this, base
      ensures Now() == SendFrame(c, old(Now()))
    {
      hide Body, Chunks;
      var index := next;
      next := next + 1;
      var chunks := SplitBody(Body(c, index));
      ghost var packets := FramePackets(c, local, index, pid);
      ghost var before := base.Now();
      for j := 0 to |chunks|
        invariant base.Now() == Stream(before, packets[..j])
        invariant pid == old(pid) + j && next == old(next) + 1
        invariant begin == old(begin) && ticks == old(ticks) && local == old(local)
      {
        base.Transmit(FramePacket(c, local, index, chunks, pid, j));
        assert packets[..j + 1] == packets[..j] + [packets[j]];
        pid := pid + 1;
      }
      assert packets[..|chunks|] == packets;
    }

    method SendDue()
      requires base.c == c.common && c.rate > 0 && |c.aus| == 6 && begin.Some?
      modifies this, base
      ensures Now() == Produce(c, old(Now()))
    {
      hide FramePackets, Stream;
      while next < c.frames
        invariant begin == old(begin)
        invariant Produce(c, Now()) == Produce(c, old(Now()))
        decreases c.frames - next
      {
        var t := ReadClock();
        if t - begin.value < next as real / c.rate as real {
          return;
        }
        SendOne();
        var _ := ReadClock();
      }
    }

    method OnIdle(stage: Stage)
      requires base.c == c.common && c.rate > 0 && |c.aus| == 6
      modifies this, base
      ensures Now() == Idle(c, old(Now()), stage)
    {
      hide Produce, StopSecret;
      if !base.started {
        return;
      }
      if stage == StartNow && begin.None? {
        var t := ReadClock();
        begin := Some(t);
      }
      if begin.Some? && !base.stopped {
        SendDue();
      }
      if stage == StopNow && !base.stopped {
        base.SendStop(local);
      }
    }

    method Receive(raw: Octets, stage: Stage) returns (ok: bool)
      requires base.c == c.common && c.rate > 0 && |c.aus| == 6
      modifies this, base
      ensures LoadOutcome(Now(), ok) == Call(c, old(Now()), stage, raw)
    {
      hide Idle, StartSecret, WithoutCrc, Negotiate;
      OnIdle(stage);
      ok := base.CallNegotiate(raw);
      if !ok {
        return;
      }
      var stripped := StripCrc(raw);
      if stripped.Raised? || stripped.value == [] {
        return false;
      }
      if Starts(base.Now(), stripped.value) {
        StripKeepsKind(raw);
        local := raw[2];
        base.SendStart(raw[2]);
      }
    }

    /** The serving loop: events up to the first exception. */
    method Serve(events: seq<Event>) returns (ok: bool)
      requires Now() == FRESH && base.c == c.common && c.rate > 0 && |c.aus| == 6
      modifies this, base
      ensures LoadOutcome(Now(), ok) == Served(c, events)
    {
      hide Idle, Call;
      ok := true;
      for n := 0 to |events|
        invariant ok && LoadOutcome(Now(), ok) == Served(c, events[..n])
      {
        assert events[..n + 1][..n] == events[..n];
        match events[n] {
          case Tick(stage) => OnIdle(stage);
          case Datagram(stage, raw) => ok := Receive(raw, stage);
        }
        if !ok {
          BrokenOff(c, events, n + 1);
          return;
        }
      }
      assert events[..|events|] == events;
    }
  }

  // --------------------------------------------------------- what a frame is

  lemma {:induction false} ChunksJoin(body: Octets)
    ensures Joined(Chunks(body)) == body
    decreases |body|
  {
    if 1200 < |body| {
      ChunksJoin(body[1200..]);
      assert Chunks(body)[1..] == Chunks(body[1200..]);
    }
  }

  function Joined(chunks: seq<Octets>): Octets {
    if chunks == [] then [] else chunks[0] + Joined(chunks[1..])
  }

  function Payloads(packets: seq<Packet>): (payloads: seq<Octets>)
    ensures |payloads| == |packets|
    ensures forall j :: 0 <= j < |packets| ==> payloads[j] == packets[j].body
  {
    seq(|packets|, j requires 0 <= j < |packets| => packets[j].body)
  }

  /** A frame as received: its time stamp and its bytes. */
  datatype Unit = Unit(stamp: nat, body: Octets)

  function Units(c: LoadCase, n: nat): (units: seq<Unit>)
    requires |c.aus| == 6
    ensures |units| == n && forall i :: 0 <= i < n ==> units[i] == Unit(Stamp(i), Body(c, i))
  {
    if n == 0 then [] else Units(c, n - 1) + [Unit(Stamp(n - 1), Body(c, n - 1))]
  }

  /** The number of packets a frame takes according to its head, if the stream begins with a whole
      frame: a head that counts its continuations, and those, with consecutive ids and its stamp. */
  predicate BeginsWhole(packets: seq<Packet>) {
    && packets != [] && packets[0].kind == 3 && 0 <= packets[0].fragment < |packets|
    && forall j :: 1 <= j <= packets[0].fragment ==>
         && packets[j].kind == 4 && packets[j].fragment == 0
         && packets[j].id == packets[0].id + j && packets[j].stamp == packets[0].stamp
  }

  /** What a receiver that trusts the heads puts together. */
  function Reassembled(packets: seq<Packet>): Option<seq<Unit>> {
    if packets == [] then Some([])
    else if !BeginsWhole(packets) then None
    else
      var n := packets[0].fragment + 1;
      match Reassembled(packets[n..])
      case None => None
      case Some(rest) => Some([Unit(packets[0].stamp, Joined(Payloads(packets[..n])))] + rest)
  }

  lemma FrameReassembles(c: LoadCase, local: byte, index: nat, pid: nat, rest: seq<Packet>)
    requires |c.aus| == 6
    ensures var packets := FramePackets(c, local, index, pid);
            && BeginsWhole(packets + rest) && packets[0].fragment + 1 == |packets|
            && Joined(Payloads(packets)) == Body(c, index) && packets[0].stamp == Stamp(index)
  {
    var body := Body(c, index);
    hide Body;
    var chunks := Chunks(body);
    var packets := FramePackets(c, local, index, pid);
    ChunksJoin(body);
    assert Payloads(packets) == chunks;
  }

  lemma WholeFirst(c: LoadCase, local: byte, index: nat, pid: nat, rest: seq<Packet>)
    requires |c.aus| == 6 && Reassembled(rest).Some?
    ensures Reassembled(FramePackets(c, local, index, pid) + rest)
         == Some([Unit(Stamp(index), Body(c, index))] + Reassembled(rest).value)
  {
    var packets := FramePackets(c, local, index, pid);
    FrameReassembles(c, local, index, pid, rest);
    hide Body, FramePackets, Payloads, Joined;
    var all := packets + rest;
    assert packets != [] && all[0] == packets[0] && all != [];
    assert all[|packets|..] == rest && all[..|packets|] == packets;
  }

  /** All frames before `n` and what follows them. */
  lemma {:induction false} FramesReassemble(c: LoadCase, local: byte, n: nat, rest: seq<Packet>)
    requires |c.aus| == 6 && Reassembled(rest).Some?
    ensures Reassembled(Frames(c, local, n) + rest) == Some(Units(c, n) + Reassembled(rest).value)
    decreases n
  {
    hide Body, FramePackets, Reassembled;
    if n == 0 {
      assert Frames(c, local, n) + rest == rest;
      assert Units(c, n) + Reassembled(rest).value == Reassembled(rest).value;
    } else {
      var before := Frames(c, local, n - 1);
      var packets := FramePackets(c, local, n - 1, |before|);
      WholeFirst(c, local, n - 1, |before|, rest);
      FramesReassemble(c, local, n - 1, packets + rest);
      assert before + (packets + rest) == Frames(c, local, n) + rest;
      var last := [Unit(Stamp(n - 1), Body(c, n - 1))];
      assert Units(c, n - 1) + (last + Reassembled(rest).value) == Units(c, n) + Reassembled(rest).value;
    }
  }

  /** Ids are positions, and no packet is empty or larger than a chunk. */
  lemma {:induction false} FramesNumbered(c: LoadCase, local: byte, n: nat, k: nat)
    requires |c.aus| == 6 && k < |Frames(c, local, n)|
    ensures var p := Frames(c, local, n)[k];
            && p.id == k && 1 <= |p.body| <= 1200
            && p.retry == 0 && p.remote == 7 && p.local == local && p.channel == 3
    decreases n
  {
    hide Body;
    var before := Frames(c, local, n - 1);
    if k < |before| {
      FramesNumbered(c, local, n - 1, k);
    }
  }

  /** Access units of the clip's sizes take two packets at most, so no case of up to 32768 frames
      runs out of packet ids. */
  lemma {:induction false} ClipFits(c: LoadCase, local: byte, n: nat)
    requires |c.aus| == 6 && forall i :: 0 <= i < 6 ==> |c.aus[i]| <= 2204
    ensures n <= |Frames(c, local, n)| <= 2 * n
    decreases n
  {
    if n > 0 {
      ClipFits(c, local, n - 1);
      TwoChunks(Body(c, n - 1));
      hide Body, Chunks;
    }
  }

  lemma TwoChunks(body: Octets)
    requires 0 < |body| <= 2400
    ensures 1 <= |Chunks(body)| <= 2
  {
    assert Chunks(body) == if |body| <= 1200 then [body] else [body[..1200], body[1200..]];
  }

  // ---------------------------------------------------------------- every run

  /** Production is punctual once begun, unless it was stopped before. */
  ghost predicate Punctual(c: LoadCase, s: Load) {
    s.begin.Some? && (s.next > 0 || !s.base.stopped) ==>
      OnTime(c.clock, s.begin.value, c.rate, c.frames, s.next, s.ticks)
  }

  /** The media channel has carried the first `next` frames and nothing else. */
  ghost predicate OnStream(c: LoadCase, s: Load)
    requires |c.aus| == 6
  {
    && s.next <= c.frames && s.pid == |Frames(c, s.local, s.next)| && Media(s.base.sent) == Frames(c, s.local, s.next)
    && (s.begin.None? ==> s.next == 0) && (!s.base.started ==> s.begin.None?)
  }

  ghost predicate Fine(c: LoadCase, s: Load, raws: seq<Octets>, ok: bool)
    requires |c.aus| == 6
  {
    Sound(c.common, s.base, raws, ok) && OnStream(c, s)
  }

  lemma SendFrameFine(c: LoadCase, s: Load, raws: seq<Octets>)
    requires |c.aus| == 6 && Fine(c, s, raws, true) && s.next < c.frames && s.begin.Some?
    ensures Fine(c, SendFrame(c, s), raws, true)
  {
    hide Sound, Media, FramePackets;
    var packets := FramePackets(c, s.local, s.next, s.pid);
    StreamSound(c.common, s.base, raws, packets);
    StreamMedia(s.base, packets);
  }

  /** The loop leaves the stream whole and punctual. */
  lemma {:induction false} ProduceFine(c: LoadCase, s: Load, raws: seq<Octets>)
    requires ValidCase(c) && Fine(c, s, raws, true) && s.begin.Some?
    requires NotEarly(c.clock, s.begin.value, c.rate, s.next, s.ticks)
    ensures var t := Produce(c, s);
            && Fine(c, t, raws, true) && t.begin == s.begin && t.local == s.local && t.base.stopped == s.base.stopped
            && OnTime(c.clock, s.begin.value, c.rate, c.frames, t.next, t.ticks)
    decreases c.frames - s.next
  {
    hide Sound, FramePackets, Frames, Due, OnTime, NotEarly, Media;
    if s.next >= c.frames {
      DoneStops(c.clock, s.begin.value, c.rate, c.frames, s.ticks);
    } else if !Due(c.clock, s.ticks, s.begin.value, s.next, c.rate) {
      UndueStops(c.clock, s.begin.value, c.rate, c.frames, s.next, s.ticks);
    } else {
      SendFrameFine(c, s, raws);
      DueKeeps(c.clock, s.begin.value, c.rate, s.next, s.ticks);
      ProduceFine(c, SendFrame(c, s).(ticks := s.ticks + 2), raws);
    }
  }

  lemma EndingFine(c: LoadCase, s: Load, stage: Stage, raws: seq<Octets>)
    requires ValidCase(c) && Fine(c, s, raws, true) && Punctual(c, s) && s.base.started
    ensures Fine(c, Ending(c.common, s, stage), raws, true) && Punctual(c, Ending(c.common, s, stage))
  {
    hide Sound, Frames, Media, StopSecret, OnTime;
    if !s.base.stopped {
      StopSound(c.common, s.base, raws, s.local);
      SendMedia(s.base, Control(s.local, 5, StopSecret(c.common)));
    }
  }

  lemma IdleFine(c: LoadCase, s: Load, stage: Stage, raws: seq<Octets>)
    requires ValidCase(c) && Fine(c, s, raws, true) && Punctual(c, s)
    ensures Fine(c, Idle(c, s, stage), raws, true) && Punctual(c, Idle(c, s, stage))
  {
    hide Sound, Frames, Media, Produce, Ending, OnTime, NotEarly;
    if s.base.started {
      var begun := Beginning(c, s, stage);
      assert Fine(c, begun, raws, true);
      if begun.begin.Some? && !s.base.stopped {
        if s.begin.None? {
          FirstReading(c.clock, c.rate, s.ticks);
        } else {
          OnTimeNotEarly(c.clock, s.begin.value, c.rate, c.frames, s.next, s.ticks);
        }
        ProduceFine(c, begun, raws);
        assert Produce(c, begun).base.started;
        EndingFine(c, Produce(c, begun), stage, raws);
      } else {
        EndingFine(c, begun, stage, raws);
      }
    }
  }

  lemma NegotiatingFine(c: LoadCase, s: Load, raws: seq<Octets>, raw: Octets)
    requires ValidCase(c) && Fine(c, s, raws, true) && Punctual(c, s)
    ensures var n := Negotiating(c.common, s, raw);
            Fine(c, n.load, raws + [raw], n.ok) && Punctual(c, n.load)
  {
    hide Sound, Media, Negotiate, Frames, OnTime;
    NegotiateSound(c.common, s.base, raws, raw);
    NegotiateUntouched(c.common, s.base, raw);
  }

  lemma ReactFine(c: LoadCase, s: Load, raws: seq<Octets>, raw: Octets)
    requires ValidCase(c) && Fine(c, s, raws, true) && Punctual(c, s) && raws != [] && raws[|raws| - 1] == raw
    ensures var r := React(c.common, s, raw);
            Fine(c, r.load, raws, r.ok) && Punctual(c, r.load)
  {
    hide Sound, Media, Frames, OnTime, WithoutCrc, Type, StartSecret;
    SoundAnyway(c.common, s.base, raws);
    if WithoutCrc(raw).Ok? && WithoutCrc(raw).value != [] {
      StripKeepsKind(raw);
      if Starts(s.base, WithoutCrc(raw).value) {
        StartSound(c.common, s.base, raws, raw[2]);
        SendMedia(s.base, Control(raw[2], 4, StartSecret(c.common)));
        NoFrames(c, s.local);
        NoFrames(c, raw[2]);
      }
    }
  }

  lemma NoFrames(c: LoadCase, local: byte)
    requires |c.aus| == 6
    ensures Frames(c, local, 0) == []
  {}

  lemma CallFine(c: LoadCase, s: Load, stage: Stage, raws: seq<Octets>, raw: Octets)
    requires ValidCase(c) && Fine(c, s, raws, true) && Punctual(c, s)
    ensures var r := Call(c, s, stage, raw);
            Fine(c, r.load, raws + [raw], r.ok) && Punctual(c, r.load)
  {
    hide Fine, Idle, Negotiating, React, Punctual, Frames;
    IdleFine(c, s, stage, raws);
    NegotiatingFine(c, Idle(c, s, stage), raws, raw);
    var negotiated := Negotiating(c.common, Idle(c, s, stage), raw);
    if negotiated.ok {
      ReactFine(c, negotiated.load, raws + [raw], raw);
    }
  }

  datatype Event = Tick(stage: Stage) | Datagram(stage: Stage, raw: Octets)

  /** Any run, up to the first exception. */
  function Served(c: LoadCase, events: seq<Event>): LoadOutcome
    requires c.rate > 0 && |c.aus| == 6
  {
    if events == [] then LoadOutcome(FRESH, true)
    else
      var n := |events| - 1;
      var before := Served(c, events[..n]);
      if !before.ok then before
      else
        match events[n]
        case Tick(stage) => LoadOutcome(Idle(c, before.load, stage), true)
        case Datagram(stage, raw) => Call(c, before.load, stage, raw)
  }

  lemma {:induction false} BrokenOff(c: LoadCase, events: seq<Event>, n: nat)
    requires c.rate > 0 && |c.aus| == 6 && n <= |events| && !Served(c, events[..n]).ok
    ensures Served(c, events) == Served(c, events[..n])
    decreases |events|
  {
    hide Idle, Call;
    if n < |events| {
      var before := events[..|events| - 1];
      assert before[..n] == events[..n];
      BrokenOff(c, before, n);
    } else {
      assert events[..n] == events;
    }
  }

  function Datagrams(events: seq<Event>): seq<Octets> {
    if events == [] then []
    else
      var n := |events| - 1;
      Datagrams(events[..n]) + if events[n].Datagram? then [events[n].raw] else []
  }

  /** On every run the control channel is sound, the media channel carries the first frames whole,
      and there are as many of them as the clock calls for. */
  lemma {:induction false} EveryRunFine(c: LoadCase, events: seq<Event>)
    requires ValidCase(c)
    ensures var r := Served(c, events);
            Fine(c, r.load, Datagrams(events), r.ok) && Punctual(c, r.load)
    decreases |events|
  {
    hide Idle, Call, Sound, Frames, OnTime;
    if events == [] {
      InitialSound(c.common);
      NoFrames(c, 0);
    } else {
      var n := |events| - 1;
      EveryRunFine(c, events[..n]);
      var before := Served(c, events[..n]);
      var raws := Datagrams(events[..n]);
      if before.ok {
        match events[n]
        case Tick(stage) => IdleFine(c, before.load, stage, raws);
        case Datagram(stage, raw) => CallFine(c, before.load, stage, raws, raw);
      } else if events[n].Datagram? {
        SoundExtends(c.common, before.load.base, raws, events[n].raw);
      } else {
        assert Datagrams(events) == raws + [] == raws;
      }
    }
  }

  /** What a receiver of the whole run gets: packet ids counting up from zero, payloads of 1 to 1200
      bytes, and, put together by their heads, the bodies of the frames called for. */
  lemma EveryRunReceived(c: LoadCase, events: seq<Event>)
    requires ValidCase(c)
    ensures var s := Served(c, events).load; var media := Media(s.base.sent);
            && Reassembled(media) == Some(Units(c, s.next))
            && forall k :: 0 <= k < |media| ==>
                 && media[k].id == k && 1 <= |media[k].body| <= 1200
                 && media[k].retry == 0 && media[k].remote == 7 && media[k].local == s.local
  {
    hide Served, Sound, Frames, Media, Units, Reassembled;
    EveryRunFine(c, events);
    var s := Served(c, events).load;
    assert Reassembled([]) == Some([]) by { NothingReassembles(); }
    FramesReassemble(c, s.local, s.next, []);
    assert Media(s.base.sent) + [] == Media(s.base.sent) && Units(c, s.next) + [] == Units(c, s.next);
    forall k | 0 <= k < |Media(s.base.sent)|
      ensures var p := Media(s.base.sent)[k];
              && p.id == k && 1 <= |p.body| <= 1200 && p.retry == 0 && p.remote == 7 && p.local == s.local
    {
      FramesNumbered(c, s.local, s.next, k);
    }
  }

  lemma NothingReassembles()
    ensures Reassembled([]) == Some([])
  {}

  // ------------------------------------------------- what is in the frames

  lemma UnitsSay(c: LoadCase, n: nat, i: nat)
    requires |c.aus| == 6 && i < n <= 65436
    ensures Units(c, n)[i].stamp == 1000000 + 1092 * i
    ensures VideoSays(Units(c, n)[i].body, 100 + i, 1000000 + 1092 * i, i, if i % 6 == 0 then 24 else 8, c.aus[i % 6])
  {
    hide VideoSays, VideoHead;
    VideoReads(100 + i, 1000000 + 1092 * i, i, if i % 6 == 0 then 24 else 8, c.aus[i % 6]);
  }

  /** On every run the receiver gets, for each frame sent, the next of the six access units in turn,
      with its id, time stamp, sequence number and key-frame flags. */
  lemma EveryFrameReceived(c: LoadCase, events: seq<Event>, i: nat)
    requires ValidCase(c) && i < Served(c, events).load.next
    ensures var s := Served(c, events).load; var units := Reassembled(Media(s.base.sent));
            && units.Some? && |units.value| == s.next && units.value[i].stamp == 1000000 + 1092 * i
            && VideoSays(units.value[i].body, 100 + i, 1000000 + 1092 * i, i,
                         if i % 6 == 0 then 24 else 8, c.aus[i % 6])
  {
    hide Served, Sound, Frames, Media, Reassembled, VideoSays;
    EveryRunFine(c, events);
    EveryRunReceived(c, events);
    UnitsSay(c, Served(c, events).load.next, i);
  }

  // ------------------------------------------------------- what is answered

  predicate Onwards(s: Load, t: Load) {
    && (s.begin.Some? ==> t.begin == s.begin) && (s.base.started ==> t.base.started)
    && (s.base.stopped ==> t.base.stopped) && (s.base.started ==> t.local == s.local)
  }

  lemma {:induction false} ProduceOnwards(c: LoadCase, s: Load)
    requires c.rate > 0 && |c.aus| == 6 && s.begin.Some?
    ensures Onwards(s, Produce(c, s))
    decreases c.frames - s.next
  {
    hide FramePackets, Due;
    if s.next < c.frames && Due(c.clock, s.ticks, s.begin.value, s.next, c.rate) {
      ProduceOnwards(c, SendFrame(c, s).(ticks := s.ticks + 2));
    }
  }

  /** What a barrier has done: the clock is read when production starts, at that barrier and no other,
      and the stop is sent. */
  lemma IdleServes(c: LoadCase, s: Load, stage: Stage)
    requires c.rate > 0 && |c.aus| == 6
    ensures var t := Idle(c, s, stage);
            && Onwards(s, t)
            && (s.base.started && stage == StartNow && s.begin.None? ==> t.begin == Some(c.clock(s.ticks)))
            && (s.base.started && stage == StopNow ==> t.base.stopped)
            && (stage != StartNow && s.begin.None? ==> t.begin.None?)
  {
    hide Produce, StopSecret, Secret;
    if s.base.started {
      var begun := Beginning(c, s, stage);
      if begun.begin.Some? && !s.base.stopped {
        ProduceOnwards(c, begun);
      }
    }
  }

  /** A call that completes has answered a request to start. */
  lemma CallServes(c: LoadCase, s: Load, stage: Stage, raw: Octets)
    requires c.rate > 0 && |c.aus| == 6
    ensures var r := Call(c, s, stage, raw);
            && Onwards(s, r.load)
            && (r.ok && Type(raw) == Some(5) && WithoutCrc(raw).value[4] == 1 ==> r.load.base.started)
            && (!s.base.started && r.load.base.started ==> |raw| > 2 && r.load.local == raw[2])
  {
    IdleServes(c, s, stage);
    StripKeepsKind(raw);
    TypedIsControl(raw);
    assert Type(raw).Some? ==> |WithoutCrc(raw).value| > 13 && WithoutCrc(raw).value[13] == Type(raw).value;
    hide Idle, WithoutCrc, Type, StartSecret, Negotiate;
    NegotiateUntouched(c.common, Idle(c, s, stage).base, raw);
  }
}
