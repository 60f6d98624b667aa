/** The peer that paces prepared packets, withholds one of them, and repairs it when the client's
    feedback asks for it. */
module PressurePeer {
  import opened Bytes
  import opened Crc32c
  import opened Peers
  import opened ControlChannel
  import opened Pacing

  /** `groups` are the packets of the frames, `hole` the id to withhold or a negative number, and
      `repair` whether the profile repairs it. */
  datatype PressureCase = PressureCase(
    common: Case, frames: nat, rate: nat, groups: seq<seq<Packet>>, hole: int, repair: bool, clock: Clock)

  predicate Playable(c: PressureCase) {
    c.rate > 0 && |c.groups| == c.frames
  }

  ghost predicate ValidCase(c: PressureCase) {
    && Playable(c) && Forward(c.clock)
    && forall i, j :: 0 <= i < |c.groups| && 0 <= j < |c.groups[i]| ==> c.groups[i][j].channel == 3
  }

  datatype Stage = StartNow | StopNow | Other

  /** `ticks` counts the readings of the clock; `feedback` keeps the client's reports. */
  datatype Pressure = Pressure(
    base: State, begin: Option<real>, next: nat, ticks: nat, local: byte,
    withheld: Option<Packet>, repaired: bool, feedback: seq<Octets>)

  const FRESH: Pressure := Pressure(INITIAL, None, 0, 0, 0, None, false, [])

  datatype PressureOutcome = PressureOutcome(pressure: Pressure, ok: bool)

  // -------------------------------------------------------------- the report

  /** Whether a report of this watermark, base and bitmap misses the packet. */
  predicate Requested(wire: Octets, pid: int) {
    if |wire| < 19 || wire[0] % 128 != 10 || wire[4] != 3 then false
    else
      var base, confirmed := U16(wire, 7), U16(wire, 17);
      if 0 < (pid - confirmed) % 65536 < 32768 && 0 < (base - pid) % 65536 < 32768 then true
      else
        var offset, bitmap := (pid - base) % 65536, wire[19..];
        offset < |bitmap| * 8 && (bitmap[offset / 8] / Pow2(offset % 8)) % 2 == 0
  }

  /** `to` is ahead of `from` by less than half the circle of ids. */
  predicate Ahead(from: int, to: int) {
    1 <= (to - from) % 65536 <= 32767
  }

  /** What a report says is missing: what lies after the confirmed watermark and before the base, and
      what its bitmap, bit by bit from the base on, has clear. */
  predicate Misses(wire: Octets, pid: int) {
    && |wire| >= 19 && wire[0] % 128 == 10 && wire[4] == 3
    && var base, confirmed := Two(wire[7], wire[8]), Two(wire[17], wire[18]);
       || (Ahead(confirmed, pid) && Ahead(pid, base))
       || ((pid - base) % 65536 < |BitsOf(wire[19..])| && !BitsOf(wire[19..])[(pid - base) % 65536])
  }

  lemma ClearBit(bitmap: Octets, offset: nat)
    requires offset < 8 * |bitmap|
    ensures bitmap[offset / 8] / Pow2(offset % 8) % 2 == 0 <==> !BitsOf(bitmap)[offset]
  {
    hide Pow2, BitsOf;
    BitsOfAt(bitmap, offset);
  }

  /** The fixture's test is that. */
  lemma RequestedIsMissing(wire: Octets, pid: int)
    ensures Requested(wire, pid) <==> Misses(wire, pid)
  {
    hide Pow2, BitsOf, U16, Two;
    if |wire| >= 19 {
      TwoOctets(wire, 7);
      TwoOctets(wire, 17);
      var base, confirmed, bitmap := U16(wire, 7), U16(wire, 17), wire[19..];
      var offset := (pid - base) % 65536;
      if offset < 8 * |bitmap| {
        ClearBit(bitmap, offset);
      }
    }
  }

  // ------------------------------------------------------------------ steps

  function Transmitted(s: Pressure, p: Packet): Pressure {
    s.(base := Send(s.base, p.(local := s.local)))
  }

  predicate IsHole(c: PressureCase, p: Packet) {
    c.hole >= 0 && p.id == c.hole
  }

  /** The packets of one group; a second hole fails the assertion. */
  function SendGroup(c: PressureCase, s: Pressure, group: seq<Packet>): PressureOutcome
    decreases |group|
  {
    if group == [] then PressureOutcome(s, true)
    else if !IsHole(c, group[0]) then SendGroup(c, Transmitted(s, group[0]), group[1..])
    else if s.withheld.Some? then PressureOutcome(s, false)
    else SendGroup(c, s.(withheld := Some(group[0])), group[1..])
  }

  function Produce(c: PressureCase, s: Pressure): PressureOutcome
    requires Playable(c) && s.begin.Some?
    decreases c.frames - s.next
  {
    if s.next >= c.frames then PressureOutcome(s, true)
    else if !Due(c.clock, s.ticks, s.begin.value, s.next, c.rate) then PressureOutcome(s.(ticks := s.ticks + 1), true)
    else
      var sent := SendGroup(c, s.(ticks := s.ticks + 1, next := s.next + 1), c.groups[s.next]);
      if !sent.ok then sent
      else
        GroupKeeps(c, s.(ticks := s.ticks + 1, next := s.next + 1), c.groups[s.next]);
        Produce(c, sent.pressure.(ticks := s.ticks + 2))
  }

  lemma GroupKeeps(c: PressureCase, s: Pressure, group: seq<Packet>)
    ensures var t := SendGroup(c, s, group).pressure;
            && t.next == s.next && t.begin == s.begin && t.ticks == s.ticks && t.local == s.local
            && t.repaired == s.repaired && t.feedback == s.feedback
            && t.base.started == s.base.started && t.base.stopped == s.base.stopped
    decreases |group|
  {}

  function Beginning(c: PressureCase, s: Pressure, stage: Stage): Pressure {
    if stage == StartNow && s.begin.None? then s.(begin := Some(c.clock(s.ticks)), ticks := s.ticks + 1) else s
  }

  function Ending(c: Case, s: Pressure, stage: Stage): Pressure {
    if stage == StopNow && !s.base.stopped then s.(base := DoStop(c, s.base, s.local)) else s
  }

  /** `on_idle` */
  function Idle(c: PressureCase, s: Pressure, stage: Stage): PressureOutcome
    requires Playable(c)
  {
    if !s.base.started then PressureOutcome(s, true)
    else
      var begun := Beginning(c, s, stage);
      var produced := if begun.begin.Some? && !s.base.stopped then Produce(c, begun) else PressureOutcome(begun, true);
      if !produced.ok then produced else PressureOutcome(Ending(c.common, produced.pressure, stage), true)
  }

  function Negotiating(c: Case, s: Pressure, raw: Octets): PressureOutcome {
    var n := Negotiate(c, s.base, raw);
    PressureOutcome(s.(base := n.state), n.ok)
  }

  /** A report is recorded, and answered by the one repair when it asks for the packet withheld. */
  function Heeding(c: PressureCase, s: Pressure, raw: Octets, wire: Octets): Pressure {
    if |wire| > 4 && wire[4] == 3 && wire[0] % 128 == 10 then
      var noted := s.(feedback := s.feedback + [raw]);
      if c.repair && s.withheld.Some? && !s.repaired && Requested(wire, c.hole) then
        Transmitted(noted, s.withheld.value.(retry := 1)).(repaired := true)
      else noted
    else s
  }

  lemma ShortIgnored(c: PressureCase, s: Pressure, raw: Octets, wire: Octets)
    requires |wire| <= 4
    ensures Heeding(c, s, raw, wire) == s
  {}

  function Starting(c: Case, s: Pressure, local: byte): Pressure {
    s.(base := DoStart(c, s.base, local), local := local)
  }

  /** `load.Peer.__call__` after the barrier, then the rest of `__call__`. */
  function React(c: PressureCase, s: Pressure, raw: Octets): PressureOutcome {
    match WithoutCrc(raw)
    case Raised => PressureOutcome(s, false)
    case Ok(data) =>
      if data == [] then PressureOutcome(s, false)
      else
        StripKeepsKind(raw);
        var started := if Starts(s.base, data) then Starting(c.common, s, raw[2]) else s;
        PressureOutcome(Heeding(c, started, raw, data), |data| > 4)
  }

  function Call(c: PressureCase, s: Pressure, stage: Stage, raw: Octets): PressureOutcome
    requires Playable(c)
  {
    var idle := Idle(c, s, stage);
    if !idle.ok then idle
    else
      var negotiated := Negotiating(c.common, idle.pressure, raw);
      if !negotiated.ok then negotiated else React(c, negotiated.pressure, raw)
  }

  // ----------------------------------------------------------------- the peer

  class Peer {
    const c: PressureCase
    const base: Peers.Peer
    var begin: Option<real>
    var next: nat
    var ticks: nat
    var local: byte
    var withheld: Option<Packet>
    var repaired: bool
    var feedback: seq<Octets>

    function Now(): Pressure
      reads this, base
    {
      Pressure(base.Now(), begin, next, ticks, local, withheld, repaired, feedback)
    }

    constructor (c: PressureCase)
      ensures this.c == c && base.c == c.common && fresh(base) && Now() == FRESH
    {
      this.c := c;
      base := new Peers.Peer(c.common);
      begin, next, ticks, local := None, 0, 0, 0;
      withheld, repaired, feedback := None, false, [];
    }

    method ReadClock() returns (t: real)
      modifies this`ticks
      ensures t == c.clock(old(ticks)) && ticks == old(ticks) + 1
    {
      t := c.clock(ticks);
      ticks := ticks + 1;
    }

    method Transmit(p: Packet)
      modifies base
      ensures Now() == Transmitted(old(Now()), p)
    {
      base.Transmit(p.(local := local));
    }

    method SendPackets(group: seq<Packet>) returns (ok: bool)
      modifies this, base
      ensures PressureOutcome(Now(), ok) == SendGroup(c, old(Now()), group)
    {
      hide Transmitted;
      assert group[0..] == group;
      for j := 0 to |group|
        invariant SendGroup(c, Now(), group[j..]) == SendGroup(c, old(Now()), group)
      {
        assert group[j..][0] == group[j] && group[j..][1..] == group[j + 1..];
        if c.hole >= 0 && group[j].id == c.hole {
          if withheld.Some? {
            return false;
          }
          withheld := Some(group[j]);
        } else {
          Transmit(group[j]);
        }
      }
      ok := true;
    }

    method SendDue() returns (ok: bool)
      requires Playable(c) && begin.Some?
      modifies this, base
      ensures PressureOutcome(Now(), ok) == Produce(c, old(Now()))
    {
      hide SendGroup;
      while next < c.frames
        invariant begin == old(begin)
        invariant Produce(c, Now()) == Produce(c, old(Now()))
        decreases c.frames - next
      {
        var t := ReadClock();
        if t - begin.value < next as real / c.rate as real {
          return true;
        }
        var index := next;
        next := next + 1;
        GroupKeeps(c, Now(), c.groups[index]);
        ok := SendPackets(c.groups[index]);
        if !ok {
          return;
        }
        var _ := ReadClock();
      }
      ok := true;
    }

    method OnIdle(stage: Stage) returns (ok: bool)
      requires Playable(c) && base.c == c.common
      modifies this, base
      ensures PressureOutcome(Now(), ok) == Idle(c, old(Now()), stage)
    {
      hide Produce, StopSecret;
      ok := true;
      if !base.started {
        return;
      }
      if stage == StartNow && begin.None? {
        var t := ReadClock();
        begin := Some(t);
      }
      if begin.Some? && !base.stopped {
        ok := SendDue();
        if !ok {
          return;
        }
      }
      if stage == StopNow && !base.stopped {
        base.SendStop(local);
      }
    }

    method Heed(raw: Octets, wire: Octets)
      requires |wire| > 4
      modifies this, base
      ensures Now() == Heeding(c, old(Now()), raw, wire)
    {
      hide Requested;
      if wire[4] == 3 && wire[0] % 128 == 10 {
        feedback := feedback + [raw];
        if c.repair && withheld.Some? && !repaired && Requested(wire, c.hole) {
          Transmit(withheld.value.(retry := 1));
          repaired := true;
        }
      }
    }

    method Receive(raw: Octets, stage: Stage) returns (ok: bool)
      requires Playable(c) && base.c == c.common
      modifies this, base
      ensures PressureOutcome(Now(), ok) == Call(c, old(Now()), stage, raw)
    {
      hide Idle, StartSecret, WithoutCrc, Negotiate, Heeding;
      ok := OnIdle(stage);
      if !ok {
        return;
      }
      ok := base.CallNegotiate(raw);
      if !ok {
        return;
      }
      var stripped := StripCrc(raw);
      if stripped.Raised? || stripped.value == [] {
        return false;
      }
      if Starts(base.Now(), stripped.value) {
        StripKeepsKind(raw);
        local := raw[2];
        base.SendStart(raw[2]);
      }
      if |stripped.value| <= 4 {
        ShortIgnored(c, Now(), raw, stripped.value);
        return false;
      }
      Heed(raw, stripped.value);
    }

    /** The serving loop: events up to the first exception. */
    method Serve(events: seq<Event>) returns (ok: bool)
      requires Now() == FRESH && Playable(c) && base.c == c.common
      modifies this, base
      ensures PressureOutcome(Now(), ok) == Served(c, events)
    {
      hide Idle, Call;
      ok := true;
      for n := 0 to |events|
        invariant ok && PressureOutcome(Now(), ok) == Served(c, events[..n])
      {
        assert events[..n + 1][..n] == events[..n];
        match events[n] {
          case Tick(stage) => ok := OnIdle(stage);
          case Datagram(stage, raw) => ok := Receive(raw, stage);
        }
        if !ok {
          BrokenOff(c, events, n + 1);
          return;
        }
      }
      assert events[..|events|] == events;
    }
  }

  // ------------------------------------------------------------ conservation

  /** The packets sent on at once, and those held back. */
  function Kept(c: PressureCase, produced: seq<Packet>): (kept: seq<Packet>) {
    if produced == [] then []
    else
      var n := |produced| - 1;
      Kept(c, produced[..n]) + if IsHole(c, produced[n]) then [] else [produced[n]]
  }

  function Held(c: PressureCase, produced: seq<Packet>): (held: seq<Packet>) {
    if produced == [] then []
    else
      var n := |produced| - 1;
      Held(c, produced[..n]) + if IsHole(c, produced[n]) then [produced[n]] else []
  }

  /** How many packets were sent on before the last one held back. */
  function Place(c: PressureCase, produced: seq<Packet>): (place: nat)
    ensures place <= |Kept(c, produced)|
  {
    if produced == [] then 0
    else
      var n := |produced| - 1;
      if IsHole(c, produced[n]) then |Kept(c, produced[..n])| else Place(c, produced[..n])
  }

  lemma KeepsOn(c: PressureCase, produced: seq<Packet>, p: Packet)
    ensures var after := produced + [p];
            && Kept(c, after) == Kept(c, produced) + (if IsHole(c, p) then [] else [p])
            && Held(c, after) == Held(c, produced) + (if IsHole(c, p) then [p] else [])
            && Place(c, after) == (if IsHole(c, p) then |Kept(c, produced)| else Place(c, produced))
  {
    assert (produced + [p])[..|produced|] == produced;
  }

  lemma SplicedLater<T>(kept: seq<T>, hole: seq<T>, place: nat, p: T)
    requires place <= |kept|
    ensures kept[..place] + hole + kept[place..] + [p] == (kept + [p])[..place] + hole + (kept + [p])[place..]
  {}

  lemma SplicedLast<T>(kept: seq<T>, place: nat, p: T)
    requires place <= |kept|
    ensures kept[..place] + [] + kept[place..] + [p] == kept[..|kept|] + [p] + kept[|kept|..]
  {}

  /** With at most one packet held back, what was produced is what was sent on, in order, and that
      packet in its place. */
  lemma {:induction false} ProducedIsKeptAndHeld(c: PressureCase, produced: seq<Packet>)
    requires |Held(c, produced)| <= 1
    ensures var kept, place := Kept(c, produced), Place(c, produced);
            produced == kept[..place] + Held(c, produced) + kept[place..]
    decreases |produced|
  {
    if produced != [] {
      var n := |produced| - 1;
      var before, p := produced[..n], produced[n];
      assert produced == before + [p];
      KeepsOn(c, before, p);
      hide Kept, Held, Place, IsHole;
      ProducedIsKeptAndHeld(c, before);
      var kept, place := Kept(c, before), Place(c, before);
      if IsHole(c, p) {
        SplicedLast(kept, place, p);
      } else {
        SplicedLater(kept, Held(c, before), place, p);
      }
    }
  }

  /** With the client's address byte filled in. */
  function Localised(packets: seq<Packet>, local: byte): (localised: seq<Packet>)
    ensures |localised| == |packets|
    ensures forall j :: 0 <= j < |packets| ==> localised[j] == packets[j].(local := local)
  {
    seq(|packets|, j requires 0 <= j < |packets| => packets[j].(local := local))
  }

  /** The packet held back, as it was or as it is repaired. */
  function Repairs(s: Pressure): seq<Packet> {
    if s.repaired && s.withheld.Some? then [s.withheld.value.(retry := 1)] else []
  }

  /** The media channel has carried all that was produced except the packet withheld, in order; and
      that packet's repair, if it was made, once, at a point `at` after its own place. */
  ghost predicate Conserved(c: PressureCase, s: Pressure, produced: seq<Packet>, at: nat) {
    var kept := Kept(c, produced);
    && at <= |kept|
    && Media(s.base.sent) == Localised(kept[..at] + Repairs(s) + kept[at..], s.local)
    && Held(c, produced) == (if s.withheld.Some? then [s.withheld.value] else [])
    && (s.repaired ==> s.withheld.Some? && Place(c, produced) <= at)
  }

  function Flat(groups: seq<seq<Packet>>): (packets: seq<Packet>) {
    if groups == [] then []
    else
      var n := |groups| - 1;
      Flat(groups[..n]) + groups[n]
  }

  /** The repair was asked for. */
  predicate Asked(c: PressureCase, s: Pressure) {
    c.repair && exists j :: 0 <= j < |s.feedback| && Asks(c, s.feedback[j])
  }

  predicate Asks(c: PressureCase, raw: Octets) {
    WithoutCrc(raw).Ok? && Misses(WithoutCrc(raw).value, c.hole)
  }

  /** What is conserved over the groups produced so far. When a second hole has broken the run off,
      only part of the last group was produced. */
  ghost predicate Conserving(c: PressureCase, s: Pressure, ok: bool) {
    && s.next <= |c.groups|
    && (exists produced, at: nat ::
          && produced <= Flat(c.groups[..s.next])
          && (ok ==> produced == Flat(c.groups[..s.next]))
          && Conserved(c, s, produced, at))
    && (s.repaired ==> Asked(c, s)) && (s.withheld.Some? ==> s.withheld.value.channel == 3)
    && (s.begin.None? ==> s.next == 0) && (!s.base.started ==> s.begin.None?)
  }

  /** One packet of a group sent on. */
  lemma SendingConserves(c: PressureCase, s: Pressure, produced: seq<Packet>, at: nat, p: Packet)
    requires Conserved(c, s, produced, at) && !IsHole(c, p) && p.channel == 3
    ensures Conserved(c, Transmitted(s, p), produced + [p], at)
  {
    hide Media, Kept, Held, Place;
    KeepsOn(c, produced, p);
    SendMedia(s.base, p.(local := s.local));
    var kept := Kept(c, produced);
    assert (kept + [p])[..at] == kept[..at] && (kept + [p])[at..] == kept[at..] + [p];
    assert kept[..at] + Repairs(s) + (kept[at..] + [p]) == kept[..at] + Repairs(s) + kept[at..] + [p];
    assert Localised(kept[..at] + Repairs(s) + kept[at..] + [p], s.local)
        == Localised(kept[..at] + Repairs(s) + kept[at..], s.local) + [p.(local := s.local)];
  }

  /** The one packet withheld. */
  lemma HoldingConserves(c: PressureCase, s: Pressure, produced: seq<Packet>, at: nat, p: Packet)
    requires Conserved(c, s, produced, at) && IsHole(c, p) && s.withheld.None?
    ensures Conserved(c, s.(withheld := Some(p)), produced + [p], at)
  {
    hide Media, Kept, Held, Place;
    KeepsOn(c, produced, p);
  }

  /** The repair. */
  lemma RepairConserves(c: PressureCase, s: Pressure, produced: seq<Packet>, at: nat)
    requires Conserved(c, s, produced, at) && s.withheld.Some? && !s.repaired && s.withheld.value.channel == 3
    ensures var t := Transmitted(s, s.withheld.value.(retry := 1)).(repaired := true);
            Conserved(c, t, produced, |Kept(c, produced)|)
  {
    hide Media, Kept, Held, Place;
    var kept, p := Kept(c, produced), s.withheld.value.(retry := 1);
    SendMedia(s.base, p.(local := s.local));
    assert kept[..at] + [] + kept[at..] == kept;
    assert kept[..|kept|] + [p] + kept[|kept|..] == kept + [p];
    assert Localised(kept + [p], s.local) == Localised(kept, s.local) + [p.(local := s.local)];
  }

  // ---------------------------------------------------------------- every run

  ghost predicate Fine(c: PressureCase, s: Pressure, raws: seq<Octets>, ok: bool) {
    Sound(c.common, s.base, raws, ok) && Conserving(c, s, ok)
  }

  /** Production is punctual once begun, unless it was stopped before. */
  ghost predicate Punctual(c: PressureCase, s: Pressure) {
    s.begin.Some? && (s.next > 0 || !s.base.stopped) ==>
      OnTime(c.clock, s.begin.value, c.rate, c.frames, s.next, s.ticks)
  }

  lemma TransmittedSound(c: PressureCase, s: Pressure, p: Packet, raws: seq<Octets>)
    requires Sound(c.common, s.base, raws, true) && p.channel == 3
    ensures Sound(c.common, Transmitted(s, p).base, raws, true)
  {
    hide Sound;
    var data := [p.(local := s.local)];
    StreamSound(c.common, s.base, raws, data);
    assert Stream(s.base, data) == Transmitted(s, p).base;
  }

  lemma {:induction false} GroupFine(c: PressureCase, s: Pressure, group: seq<Packet>, produced: seq<Packet>, at: nat,
                                     raws: seq<Octets>)
    returns (m: nat)
    requires Sound(c.common, s.base, raws, true) && Conserved(c, s, produced, at)
    requires s.withheld.Some? ==> s.withheld.value.channel == 3
    requires forall j :: 0 <= j < |group| ==> group[j].channel == 3
    ensures var r := SendGroup(c, s, group);
            && m <= |group| && (r.ok ==> m == |group|) && Conserved(c, r.pressure, produced + group[..m], at)
            && Sound(c.common, r.pressure.base, raws, true)
            && (r.pressure.withheld.Some? ==> r.pressure.withheld.value.channel == 3)
    decreases |group|
  {
    hide Sound, Conserved, Transmitted, IsHole;
    if group == [] {
      m := 0;
      assert produced + group[..m] == produced;
    } else if !IsHole(c, group[0]) {
      SendingConserves(c, s, produced, at, group[0]);
      TransmittedSound(c, s, group[0], raws);
      assert Transmitted(s, group[0]).withheld == s.withheld by { TransmittedKeeps(s, group[0]); }
      m := GroupFine(c, Transmitted(s, group[0]), group[1..], produced + [group[0]], at, raws);
      m := m + 1;
      assert produced + [group[0]] + group[1..][..m - 1] == produced + group[..m];
    } else if s.withheld.Some? {
      m := 0;
      assert produced + group[..m] == produced;
    } else {
      HoldingConserves(c, s, produced, at, group[0]);
      m := GroupFine(c, s.(withheld := Some(group[0])), group[1..], produced + [group[0]], at, raws);
      m := m + 1;
      assert produced + [group[0]] + group[1..][..m - 1] == produced + group[..m];
    }
  }

  lemma TransmittedKeeps(s: Pressure, p: Packet)
    ensures Transmitted(s, p).withheld == s.withheld
  {}

  lemma NextFlat(c: PressureCase, next: nat)
    requires next < |c.groups|
    ensures Flat(c.groups[..next + 1]) == Flat(c.groups[..next]) + c.groups[next]
  {
    assert c.groups[..next + 1][..next] == c.groups[..next];
  }

  /** One turn of the loop. */
  lemma TurnFine(c: PressureCase, s: Pressure, raws: seq<Octets>)
    requires ValidCase(c) && Fine(c, s, raws, true) && s.begin.Some? && s.next < c.frames
    ensures var r := SendGroup(c, s.(ticks := s.ticks + 1, next := s.next + 1), c.groups[s.next]);
            Fine(c, r.pressure, raws, r.ok)
  {
    hide Sound, Conserved;
    var group := c.groups[s.next];
    var begun := s.(ticks := s.ticks + 1, next := s.next + 1);
    var produced := Flat(c.groups[..s.next]);
    var at: nat :| Conserved(c, s, produced, at);
    assert Conserved(c, begun, produced, at) by { ConservedAgrees(c, s, begun, produced, at); }
    var m := GroupFine(c, begun, group, produced, at, raws);
    var r := SendGroup(c, begun, group);
    GroupKeeps(c, begun, group);
    hide SendGroup;
    NextFlat(c, s.next);
    SoundAnyway(c.common, r.pressure.base, raws);
    assert group[..|group|] == group;
    assert produced + group[..m] <= produced + group;
    assert produced + group[..m] <= Flat(c.groups[..r.pressure.next]);
  }

  /** Conservation does not look at the clock or the reports. */
  lemma ConservedAgrees(c: PressureCase, s: Pressure, t: Pressure, produced: seq<Packet>, at: nat)
    requires Conserved(c, s, produced, at) && Media(t.base.sent) == Media(s.base.sent)
    requires t.withheld == s.withheld && t.repaired == s.repaired && (t.local == s.local || Media(s.base.sent) == [])
    ensures Conserved(c, t, produced, at)
  {
    hide Kept, Held, Place, Media;
  }

  lemma {:induction false} ProduceFine(c: PressureCase, s: Pressure, raws: seq<Octets>)
    requires ValidCase(c) && Fine(c, s, raws, true) && s.begin.Some?
    requires NotEarly(c.clock, s.begin.value, c.rate, s.next, s.ticks)
    ensures var r := Produce(c, s);
            && Fine(c, r.pressure, raws, r.ok) && r.pressure.begin == s.begin
            && r.pressure.base.started == s.base.started && r.pressure.base.stopped == s.base.stopped
            && (r.ok ==> OnTime(c.clock, s.begin.value, c.rate, c.frames, r.pressure.next, r.pressure.ticks))
    decreases c.frames - s.next
  {
    hide Fine, SendGroup, Due, OnTime, NotEarly;
    NextBounded(c, s, raws);
    if s.next >= c.frames {
      DoneStops(c.clock, s.begin.value, c.rate, c.frames, s.ticks);
    } else if !Due(c.clock, s.ticks, s.begin.value, s.next, c.rate) {
      UndueStops(c.clock, s.begin.value, c.rate, c.frames, s.next, s.ticks);
      TicksFine(c, s, s.ticks + 1, raws);
    } else {
      TurnFine(c, s, raws);
      var begun := s.(ticks := s.ticks + 1, next := s.next + 1);
      var r := SendGroup(c, begun, c.groups[s.next]);
      GroupKeeps(c, begun, c.groups[s.next]);
      if r.ok {
        DueKeeps(c.clock, s.begin.value, c.rate, s.next, s.ticks);
        TicksFine(c, r.pressure, s.ticks + 2, raws);
        ProduceFine(c, r.pressure.(ticks := s.ticks + 2), raws);
      }
    }
  }

  lemma NextBounded(c: PressureCase, s: Pressure, raws: seq<Octets>)
    requires ValidCase(c) && Fine(c, s, raws, true)
    ensures s.next <= c.frames
  {}

  lemma TicksFine(c: PressureCase, s: Pressure, ticks: nat, raws: seq<Octets>)
    requires Fine(c, s, raws, true)
    ensures Fine(c, s.(ticks := ticks), raws, true)
  {
    SameFine(c, s, s.(ticks := ticks), raws, raws, true);
  }

  /** A change that touches neither the media channel nor production. */
  lemma SameFine(c: PressureCase, s: Pressure, t: Pressure, raws: seq<Octets>, after: seq<Octets>, ok: bool)
    requires Conserving(c, s, true) && Sound(c.common, t.base, after, ok)
    requires Media(t.base.sent) == Media(s.base.sent) && t.next == s.next
    requires t.withheld == s.withheld && t.repaired == s.repaired && s.feedback <= t.feedback
    requires t.local == s.local || (Media(s.base.sent) == [] && !s.base.started)
    requires (t.begin.None? ==> s.begin.None?) && (!t.base.started ==> t.begin.None?)
    ensures Fine(c, t, after, ok)
  {
    hide Sound, Conserved, Media;
    var produced := Flat(c.groups[..s.next]);
    var at: nat :| Conserved(c, s, produced, at);
    ConservedAgrees(c, s, t, produced, at);
    assert t.repaired ==> Asked(c, t);
  }

  lemma EndingFine(c: PressureCase, s: Pressure, stage: Stage, raws: seq<Octets>)
    requires Fine(c, s, raws, true) && Punctual(c, s) && s.base.started
    ensures Fine(c, Ending(c.common, s, stage), raws, true) && Punctual(c, Ending(c.common, s, stage))
  {
    hide Sound, Media, StopSecret, OnTime, Conserving;
    if !s.base.stopped {
      StopSound(c.common, s.base, raws, s.local);
      SendMedia(s.base, Control(s.local, 5, StopSecret(c.common)));
      assert s.begin.None? ==> s.base.started;
      SameFine(c, s, s.(base := DoStop(c.common, s.base, s.local)), raws, raws, true);
    }
  }

  lemma BeginningFine(c: PressureCase, s: Pressure, stage: Stage, raws: seq<Octets>)
    requires ValidCase(c) && Fine(c, s, raws, true) && Punctual(c, s) && s.base.started
    ensures var b := Beginning(c, s, stage);
            && Fine(c, b, raws, true)
            && (b.begin.Some? && !b.base.stopped ==> NotEarly(c.clock, b.begin.value, c.rate, b.next, b.ticks))
            && (b.base.stopped ==> Punctual(c, b))
  {
    SameFine(c, s, Beginning(c, s, stage), raws, raws, true);
    hide Sound, Media, Conserved;
    if s.begin.None? {
      FirstReading(c.clock, c.rate, s.ticks);
    } else if !s.base.stopped {
      OnTimeNotEarly(c.clock, s.begin.value, c.rate, c.frames, s.next, s.ticks);
    }
  }

  lemma IdleFine(c: PressureCase, s: Pressure, stage: Stage, raws: seq<Octets>)
    requires ValidCase(c) && Fine(c, s, raws, true) && Punctual(c, s)
    ensures var r := Idle(c, s, stage);
            Fine(c, r.pressure, raws, r.ok) && (r.ok ==> Punctual(c, r.pressure))
  {
    hide Fine, Produce, Ending, OnTime, NotEarly;
    if s.base.started {
      var begun := Beginning(c, s, stage);
      BeginningFine(c, s, stage, raws);
      if begun.begin.Some? && !s.base.stopped {
        ProduceFine(c, begun, raws);
        var r := Produce(c, begun);
        if r.ok {
          EndingFine(c, r.pressure, stage, raws);
        }
      } else {
        EndingFine(c, begun, stage, raws);
      }
    }
  }

  lemma NegotiatingFine(c: PressureCase, s: Pressure, raws: seq<Octets>, raw: Octets)
    requires Fine(c, s, raws, true) && Punctual(c, s)
    ensures var n := Negotiating(c.common, s, raw);
            Fine(c, n.pressure, raws + [raw], n.ok) && Punctual(c, n.pressure)
  {
    NegotiateSound(c.common, s.base, raws, raw);
    NegotiateUntouched(c.common, s.base, raw);
    var n := Negotiating(c.common, s, raw);
    hide Sound, Media, Negotiate, OnTime, Conserved;
    SameFine(c, s, n.pressure, raws, raws + [raw], n.ok);
  }

  /** Before the start nothing has been produced. */
  lemma NothingYet(c: PressureCase, s: Pressure)
    requires Conserving(c, s, true) && !s.base.started
    ensures Media(s.base.sent) == []
  {
    var produced := Flat(c.groups[..s.next]);
    var at: nat :| Conserved(c, s, produced, at);
    assert produced == [];
  }

  lemma StartingFine(c: PressureCase, s: Pressure, raws: seq<Octets>, local: byte)
    requires Fine(c, s, raws, true) && Punctual(c, s)
    requires !s.base.started && raws != [] && Type(raws[|raws| - 1]) == Some(5)
    ensures Fine(c, Starting(c.common, s, local), raws, true) && Punctual(c, Starting(c.common, s, local))
  {
    StartSound(c.common, s.base, raws, local);
    NothingYet(c, s);
    SendMedia(s.base, Control(local, 4, StartSecret(c.common)));
    hide Sound, Media, StartSecret, OnTime, Conserved;
    SameFine(c, s, Starting(c.common, s, local), raws, raws, true);
  }

  lemma HeedingFine(c: PressureCase, s: Pressure, raws: seq<Octets>, raw: Octets)
    requires Fine(c, s, raws, true) && Punctual(c, s) && WithoutCrc(raw).Ok?
    ensures var t := Heeding(c, s, raw, WithoutCrc(raw).value);
            Fine(c, t, raws, true) && Punctual(c, t)
  {
    hide Fine, Requested, WithoutCrc, OnTime, Asked;
    var wire := WithoutCrc(raw).value;
    var noted := s.(feedback := s.feedback + [raw]);
    NotedFine(c, s, raws, raw);
    if c.repair && s.withheld.Some? && !s.repaired && Requested(wire, c.hole) {
      NotedAsked(c, s, raw);
      RepairFine(c, noted, raws);
    }
  }

  lemma NotedFine(c: PressureCase, s: Pressure, raws: seq<Octets>, raw: Octets)
    requires Fine(c, s, raws, true)
    ensures Fine(c, s.(feedback := s.feedback + [raw]), raws, true)
  {
    SameFine(c, s, s.(feedback := s.feedback + [raw]), raws, raws, true);
  }

  lemma NotedAsked(c: PressureCase, s: Pressure, raw: Octets)
    requires c.repair && WithoutCrc(raw).Ok? && Requested(WithoutCrc(raw).value, c.hole)
    ensures Asked(c, s.(feedback := s.feedback + [raw]))
  {
    RequestedIsMissing(WithoutCrc(raw).value, c.hole);
    hide Requested, WithoutCrc, Misses;
    var noted := s.feedback + [raw];
    assert noted[|s.feedback|] == raw && Asks(c, raw);
  }

  lemma RepairFine(c: PressureCase, s: Pressure, raws: seq<Octets>)
    requires Fine(c, s, raws, true) && Asked(c, s) && s.withheld.Some? && !s.repaired
    ensures Fine(c, Transmitted(s, s.withheld.value.(retry := 1)).(repaired := true), raws, true)
  {
    hide Sound, Conserved, Asked;
    TransmittedSound(c, s, s.withheld.value.(retry := 1), raws);
    var produced := Flat(c.groups[..s.next]);
    var at: nat :| Conserved(c, s, produced, at);
    RepairConserves(c, s, produced, at);
    AskedKept(c, s);
  }

  lemma AskedKept(c: PressureCase, s: Pressure)
    requires Asked(c, s) && s.withheld.Some?
    ensures Asked(c, Transmitted(s, s.withheld.value.(retry := 1)).(repaired := true))
  {
    hide Asks;
  }

  lemma BreaksOff(c: PressureCase, s: Pressure, raws: seq<Octets>)
    requires Fine(c, s, raws, true)
    ensures Fine(c, s, raws, false)
  {
    hide Sound, Conserved;
    SoundAnyway(c.common, s.base, raws);
  }

  lemma ReactFine(c: PressureCase, s: Pressure, raws: seq<Octets>, raw: Octets)
    requires Fine(c, s, raws, true) && Punctual(c, s) && raws != [] && raws[|raws| - 1] == raw
    ensures var r := React(c, s, raw);
            Fine(c, r.pressure, raws, r.ok) && Punctual(c, r.pressure)
  {
    hide Fine, Punctual, WithoutCrc, Type, Starting, Heeding;
    BreaksOff(c, s, raws);
    if WithoutCrc(raw).Ok? && WithoutCrc(raw).value != [] {
      var data := WithoutCrc(raw).value;
      StripKeepsKind(raw);
      var started := if Starts(s.base, data) then Starting(c.common, s, raw[2]) else s;
      if Starts(s.base, data) {
        StartingFine(c, s, raws, raw[2]);
      }
      HeedingFine(c, started, raws, raw);
      BreaksOff(c, Heeding(c, started, raw, data), raws);
    }
  }

  lemma FineExtends(c: PressureCase, s: Pressure, raws: seq<Octets>, raw: Octets)
    requires Fine(c, s, raws, false)
    ensures Fine(c, s, raws + [raw], false)
  {
    hide Sound, Conserving;
    SoundExtends(c.common, s.base, raws, raw);
  }

  lemma CallFine(c: PressureCase, s: Pressure, stage: Stage, raws: seq<Octets>, raw: Octets)
    requires ValidCase(c) && Fine(c, s, raws, true) && Punctual(c, s)
    ensures var r := Call(c, s, stage, raw);
            Fine(c, r.pressure, raws + [raw], r.ok) && (r.ok ==> Punctual(c, r.pressure))
  {
    hide Fine, Idle, Negotiating, React, Punctual;
    IdleFine(c, s, stage, raws);
    var idle := Idle(c, s, stage);
    if idle.ok {
      NegotiatingFine(c, idle.pressure, raws, raw);
      var negotiated := Negotiating(c.common, idle.pressure, raw);
      if negotiated.ok {
        ReactFine(c, negotiated.pressure, raws + [raw], raw);
      }
    } else {
      FineExtends(c, idle.pressure, raws, raw);
    }
  }

  datatype Event = Tick(stage: Stage) | Datagram(stage: Stage, raw: Octets)

  /** Any run, up to the first exception. */
  function Served(c: PressureCase, events: seq<Event>): PressureOutcome
    requires Playable(c)
  {
    if events == [] then PressureOutcome(FRESH, true)
    else
      var n := |events| - 1;
      var before := Served(c, events[..n]);
      if !before.ok then before
      else
        match events[n]
        case Tick(stage) => Idle(c, before.pressure, stage)
        case Datagram(stage, raw) => Call(c, before.pressure, stage, raw)
  }

  lemma {:induction false} BrokenOff(c: PressureCase, events: seq<Event>, n: nat)
    requires Playable(c) && n <= |events| && !Served(c, events[..n]).ok
    ensures Served(c, events) == Served(c, events[..n])
    decreases |events|
  {
    hide Idle, Call;
    if n < |events| {
      var before := events[..|events| - 1];
      assert before[..n] == events[..n];
      BrokenOff(c, before, n);
    } else {
      assert events[..n] == events;
    }
  }

  function Datagrams(events: seq<Event>): seq<Octets> {
    if events == [] then []
    else
      var n := |events| - 1;
      Datagrams(events[..n]) + if events[n].Datagram? then [events[n].raw] else []
  }

  lemma InitialFine(c: PressureCase)
    ensures Fine(c, FRESH, [], true)
  {
    hide Sound;
    InitialSound(c.common);
    assert c.groups[..0] == [] && Flat(c.groups[..0]) == [];
    assert Conserved(c, FRESH, [], 0);
  }

  /** On every run the control channel is sound, the packets produced are conserved, and while
      nothing has failed production is punctual. */
  lemma {:induction false} EveryRunFine(c: PressureCase, events: seq<Event>)
    requires ValidCase(c)
    ensures var r := Served(c, events);
            Fine(c, r.pressure, Datagrams(events), r.ok) && (r.ok ==> Punctual(c, r.pressure))
    decreases |events|
  {
    hide Fine, Idle, Call, OnTime;
    if events == [] {
      InitialFine(c);
    } else {
      var n := |events| - 1;
      EveryRunFine(c, events[..n]);
      var before := Served(c, events[..n]);
      var raws := Datagrams(events[..n]);
      if before.ok {
        match events[n]
        case Tick(stage) => IdleFine(c, before.pressure, stage, raws);
        case Datagram(stage, raw) => CallFine(c, before.pressure, stage, raws, raw);
      } else if events[n].Datagram? {
        FineExtends(c, before.pressure, raws, events[n].raw);
      } else {
        assert Datagrams(events) == raws + [] == raws;
      }
    }
  }

  /** What was produced splits into what was sent on at once, whole and in order, and at most one
      packet; the media channel carries the first part with the second, its retry byte set, spliced
      in at most once and after its own place. */
  ghost predicate Spliced(c: PressureCase, s: Pressure, produced: seq<Packet>,
                          before: seq<Packet>, between: seq<Packet>, after: seq<Packet>)
  {
    && produced == before + (if s.withheld.Some? then [s.withheld.value] else []) + between + after
    && Media(s.base.sent) == Localised(before + between + Repairs(s) + after, s.local)
    && (s.repaired ==> s.withheld.Some?)
    && (s.withheld.Some? ==> c.hole >= 0 && s.withheld.value.id == c.hole)
    && forall j :: 0 <= j < |before + between + after| ==> (before + between + after)[j].id != c.hole
  }

  lemma SplitAt<T>(kept: seq<T>, place: nat, at: nat)
    requires place <= at <= |kept|
    ensures kept[..place] + kept[place..at] == kept[..at] && kept[place..at] + kept[at..] == kept[place..]
    ensures kept[..place] + kept[place..at] + kept[at..] == kept
  {}

  lemma SpliceMoves<T>(before: seq<T>, hole: seq<T>, between: seq<T>, after: seq<T>)
    ensures before + hole + between + after == before + hole + (between + after)
  {}

  lemma ConservedIsSpliced(c: PressureCase, s: Pressure, produced: seq<Packet>, at: nat)
    returns (before: seq<Packet>, between: seq<Packet>, after: seq<Packet>)
    requires Conserved(c, s, produced, at)
    ensures Spliced(c, s, produced, before, between, after)
  {
    var kept, place, held := Kept(c, produced), Place(c, produced), Held(c, produced);
    ProducedIsKeptAndHeld(c, produced);
    KeptAndHeld(c, produced);
    assert s.withheld.Some? ==> held[0] == s.withheld.value;
    assert !s.repaired ==> Repairs(s) == [];
    hide Kept, Held, Place, Media, IsHole, Localised, Repairs;
    var cut := if s.repaired then at else |kept|;
    before, between, after := kept[..place], kept[place..cut], kept[cut..];
    SplitAt(kept, place, cut);
    SpliceMoves(before, held, between, after);
    WholeAgain(kept, at);
    WholeAgain(kept, cut);
  }

  lemma WholeAgain<T>(kept: seq<T>, at: nat)
    requires at <= |kept|
    ensures kept[..at] + [] + kept[at..] == kept
  {}

  /** For a run without an exception. The repair was sent only if a report had asked for it. */
  lemma Conservation(c: PressureCase, events: seq<Event>)
    returns (before: seq<Packet>, between: seq<Packet>, after: seq<Packet>)
    requires ValidCase(c) && Served(c, events).ok
    ensures var s := Served(c, events).pressure;
            && s.next <= |c.groups| && Spliced(c, s, Flat(c.groups[..s.next]), before, between, after)
            && (s.repaired ==> Asked(c, s))
  {
    EveryRunFine(c, events);
    var s := Served(c, events).pressure;
    hide Served, Sound, Conserved, Playable, Asked;
    var produced := Flat(c.groups[..s.next]);
    var at: nat :| Conserved(c, s, produced, at);
    before, between, after := ConservedIsSpliced(c, s, produced, at);
  }

  lemma {:induction false} KeptAndHeld(c: PressureCase, produced: seq<Packet>)
    ensures forall j :: 0 <= j < |Kept(c, produced)| ==> !IsHole(c, Kept(c, produced)[j])
    ensures forall j :: 0 <= j < |Held(c, produced)| ==> IsHole(c, Held(c, produced)[j])
    decreases |produced|
  {
    if produced != [] {
      KeptAndHeld(c, produced[..|produced| - 1]);
    }
  }

  // ------------------------------------------------------- what is answered

  /** The packet withheld stays the same, and a repair made stays made. */
  predicate Onwards(s: Pressure, t: Pressure) {
    && (s.withheld.Some? ==> t.withheld == s.withheld) && (s.repaired ==> t.repaired)
    && (s.begin.Some? ==> t.begin == s.begin) && (s.base.started ==> t.base.started)
    && (s.base.stopped ==> t.base.stopped) && (s.base.started ==> t.local == s.local)
  }

  lemma IdleNeverStarts(c: PressureCase, s: Pressure, stage: Stage)
    requires Playable(c) && !s.base.started
    ensures Idle(c, s, stage) == PressureOutcome(s, true)
  {}

  lemma {:induction false} GroupOnwards(c: PressureCase, s: Pressure, group: seq<Packet>)
    ensures Onwards(s, SendGroup(c, s, group).pressure)
    decreases |group|
  {
    if group != [] {
      if !IsHole(c, group[0]) {
        GroupOnwards(c, Transmitted(s, group[0]), group[1..]);
      } else if s.withheld.None? {
        GroupOnwards(c, s.(withheld := Some(group[0])), group[1..]);
      }
    }
  }

  lemma {:induction false} ProduceOnwards(c: PressureCase, s: Pressure)
    requires Playable(c) && s.begin.Some?
    ensures Onwards(s, Produce(c, s).pressure)
    decreases c.frames - s.next
  {
    hide SendGroup, Due;
    if s.next < c.frames {
      var begun := s.(ticks := s.ticks + 1, next := s.next + 1);
      GroupOnwards(c, begun, c.groups[s.next]);
      GroupKeeps(c, begun, c.groups[s.next]);
      var sent := SendGroup(c, begun, c.groups[s.next]);
      if Due(c.clock, s.ticks, s.begin.value, s.next, c.rate) && sent.ok {
        ProduceOnwards(c, sent.pressure.(ticks := s.ticks + 2));
      }
    }
  }

  /** What a barrier that completes has done: the clock is read when production starts, and the stop
      is sent. */
  lemma IdleServes(c: PressureCase, s: Pressure, stage: Stage)
    requires Playable(c)
    ensures var r := Idle(c, s, stage);
            && Onwards(s, r.pressure)
            && (r.ok && s.base.started && stage == StartNow && s.begin.None? ==>
                  r.pressure.begin == Some(c.clock(s.ticks)))
            && (r.ok && s.base.started && stage == StopNow ==> r.pressure.base.stopped)
            && (stage != StartNow && s.begin.None? ==> r.pressure.begin.None?)
  {
    hide Produce, StopSecret, Secret;
    if s.base.started {
      var begun := Beginning(c, s, stage);
      if begun.begin.Some? && !s.base.stopped {
        ProduceOnwards(c, begun);
      }
    }
  }

  lemma HeedingOnwards(c: PressureCase, s: Pressure, raw: Octets, wire: Octets)
    ensures Onwards(s, Heeding(c, s, raw, wire))
    ensures c.repair && s.withheld.Some? && Misses(wire, c.hole) ==> Heeding(c, s, raw, wire).repaired
  {
    RequestedIsMissing(wire, c.hole);
    assert Misses(wire, c.hole) ==> |wire| > 4 && wire[4] == 3 && wire[0] % 128 == 10;
    hide Requested, Misses;
  }

  /** A call that completes has answered its datagram: a request to start, and a report that the
      packet withheld is missing. */
  lemma CallServes(c: PressureCase, s: Pressure, stage: Stage, raw: Octets)
    requires Playable(c)
    ensures var r := Call(c, s, stage, raw);
            && Onwards(s, r.pressure)
            && (r.ok && c.repair && s.withheld.Some? && WithoutCrc(raw).Ok? && Misses(WithoutCrc(raw).value, c.hole) ==>
                  r.pressure.repaired)
            && (r.ok && WithoutCrc(raw).Ok? && Type(raw) == Some(5) && WithoutCrc(raw).value[4] == 1 ==>
                  r.pressure.base.started)
            && (!s.base.started && r.pressure.base.started ==> |raw| > 2 && r.pressure.local == raw[2])
  {
    IdleServes(c, s, stage);
    if !s.base.started {
      IdleNeverStarts(c, s, stage);
    }
    var idle := Idle(c, s, stage);
    hide Idle;
    if idle.ok {
      NegotiateUntouched(c.common, idle.pressure.base, raw);
      var negotiated := Negotiating(c.common, idle.pressure, raw);
      assert Onwards(idle.pressure, negotiated.pressure);
      hide Negotiating;
      if negotiated.ok {
        ReactServes(c, negotiated.pressure, raw);
      }
      hide React;
    }
  }

  lemma ReactServes(c: PressureCase, s: Pressure, raw: Octets)
    ensures var r := React(c, s, raw);
            && Onwards(s, r.pressure)
            && (r.ok && c.repair && s.withheld.Some? && WithoutCrc(raw).Ok? && Misses(WithoutCrc(raw).value, c.hole) ==>
                  r.pressure.repaired)
            && (r.ok && WithoutCrc(raw).Ok? && Type(raw) == Some(5) && WithoutCrc(raw).value[4] == 1 ==>
                  r.pressure.base.started)
            && (!s.base.started && r.pressure.base.started ==> |raw| > 2 && r.pressure.local == raw[2])
  {
    StripKeepsKind(raw);
    TypedIsControl(raw);
    assert Type(raw).Some? ==> |WithoutCrc(raw).value| > 13 && WithoutCrc(raw).value[13] == Type(raw).value;
    hide WithoutCrc, Type, Misses, Heeding, StartSecret;
    if WithoutCrc(raw).Ok? && WithoutCrc(raw).value != [] {
      var data := WithoutCrc(raw).value;
      var started := if Starts(s.base, data) then Starting(c.common, s, raw[2]) else s;
      HeedingOnwards(c, started, raw, data);
    }
  }

  lemma {:induction false} RunOnwards(c: PressureCase, events: seq<Event>, n: nat)
    requires Playable(c) && n <= |events|
    ensures Onwards(Served(c, events[..n]).pressure, Served(c, events).pressure)
    ensures Served(c, events).ok ==> Served(c, events[..n]).ok
    decreases |events|
  {
    hide Idle, Call;
    if n < |events| {
      var before := events[..|events| - 1];
      RunOnwards(c, before, n);
      assert before[..n] == events[..n];
      var s := Served(c, before).pressure;
      match events[|events| - 1] {
        case Tick(stage) => IdleServes(c, s, stage);
        case Datagram(stage, raw) => CallServes(c, s, stage, raw);
      }
    } else {
      assert events[..n] == events;
    }
  }

  /** On every run without an exception: once the packet is withheld, a report that misses it is
      answered by the repair in the profile that repairs. */
  lemma RequestAnswered(c: PressureCase, events: seq<Event>, n: nat)
    requires Playable(c) && Served(c, events).ok && c.repair && n < |events| && events[n].Datagram?
    requires Served(c, events[..n]).pressure.withheld.Some? && Asks(c, events[n].raw)
    ensures Served(c, events).pressure.repaired
  {
    hide Idle, Call, Misses, WithoutCrc;
    RunOnwards(c, events, n);
    RunOnwards(c, events, n + 1);
    assert events[..n + 1][..n] == events[..n];
    CallServes(c, Served(c, events[..n]).pressure, events[n].stage, events[n].raw);
  }
}
