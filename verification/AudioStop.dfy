/** The threaded stop of `audit-steam-audio-stop.py`: a stopper clears the active flag, signals,
    joins the consumer, purges the queue and frees the codec, while the consumer may be anywhere
    inside a recovery loop. The interleaving, which the fixture picks by a pause index, is
    arbitrary here. */
module AudioStop {
  import opened Bytes
  import GapPolicy

  datatype Event =
    | Signal(active: bool, codec: bool)
    | JoinEnter(count: nat, codec: bool)
    | JoinReturn(count: nat, codec: bool)
    | EmptyPurge(count: nat, codec: bool)
    | StopCodec(count: nat, codec: bool)

  datatype Stopper = Running | Cleared | Signalled | Joining | Joined | Purged | Stopped

  /** `fault` records a failed assertion of the fixture or a decode with a freed codec. */
  datatype State = State(
    total: nat, count: nat, finished: bool, active: bool, codec: bool, stopper: Stopper,
    events: seq<Event>, fault: bool)

  datatype Thread = Consumer | Closer

  function Initial(total: nat): State {
    State(total, 0, false, true, true, Running, [], false)
  }

  predicate Enabled(s: State, t: Thread) {
    match t
    case Consumer => !s.finished
    case Closer => !s.stopper.Stopped? && (s.stopper.Joining? ==> s.finished)
  }

  function ConsumerStep(s: State): State {
    if s.count < s.total then s.(count := s.count + 1, fault := s.fault || !s.codec)
    else s.(finished := true)
  }

  function StopperStep(s: State): State {
    match s.stopper
    case Running => s.(active := false, stopper := Cleared)
    case Cleared => s.(events := s.events + [Signal(s.active, s.codec)], stopper := Signalled)
    case Signalled =>
      if s.finished then s.(events := s.events + [JoinReturn(s.count, s.codec)], stopper := Joined)
      else s.(events := s.events + [JoinEnter(s.count, s.codec)], stopper := Joining)
    case Joining => s.(events := s.events + [JoinReturn(s.count, s.codec)], stopper := Joined)
    case Joined =>
      s.(events := s.events + [EmptyPurge(s.count, s.codec)], stopper := Purged, fault := s.fault || !s.finished)
    case Purged =>
      s.(events := s.events + [StopCodec(s.count, s.codec)], codec := false, stopper := Stopped,
         fault := s.fault || !s.finished || s.active)
    case Stopped => s
  }

  /** One step of the chosen thread; a blocked or finished thread does nothing. */
  function Step(s: State, t: Thread): State {
    if !Enabled(s, t) then s
    else match t
      case Consumer => ConsumerStep(s)
      case Closer => StopperStep(s)
  }

  function Run(s: State, schedule: seq<Thread>): State {
    if schedule == [] then s else Step(Run(s, schedule[..|schedule| - 1]), schedule[|schedule| - 1])
  }

  // -------------------------------------------------------------- invariants

  predicate HasJoined(p: Stopper) {
    p.Joined? || p.Purged? || p.Stopped?
  }

  /** The events of a stopper at the given point; `waited` is the decode count at which it
      entered a join that had to block, if it did. */
  function Script(p: Stopper, total: nat, waited: Option<nat>): seq<Event> {
    var start := [Signal(false, true)] + if waited.Some? then [JoinEnter(waited.value, true)] else [];
    match p
    case Running => []
    case Cleared => []
    case Signalled => start
    case Joining => start
    case Joined => start + [JoinReturn(total, true)]
    case Purged => start + [JoinReturn(total, true), EmptyPurge(total, true)]
    case Stopped => start + [JoinReturn(total, true), EmptyPurge(total, true), StopCodec(total, true)]
  }

  ghost predicate Invariant(s: State, waited: Option<nat>) {
    && !s.fault
    && s.count <= s.total
    && (s.finished ==> s.count == s.total)
    && (s.active <==> s.stopper.Running?)
    && (s.codec <==> !s.stopper.Stopped?)
    && (HasJoined(s.stopper) ==> s.finished)
    && s.events == Script(s.stopper, s.total, waited)
    && (s.stopper.Joining? ==> waited.Some?)
    && (waited.Some? ==> waited.value <= s.total && (s.stopper.Joining? || HasJoined(s.stopper)))
  }

  lemma StepKeepsInvariant(s: State, t: Thread, waited: Option<nat>) returns (after: Option<nat>)
    requires Invariant(s, waited)
    ensures Invariant(Step(s, t), after) && Step(s, t).total == s.total
  {
    after := waited;
    if t.Closer? && s.stopper.Signalled? && !s.finished {
      after := Some(s.count);
    }
  }

  /** In every interleaving no assertion of the fixture fails and no decode finds the codec
      freed; the stopper is behind its join only when the consumer has finished all its
      decodes, and the events are signal, join, purge, codec stop, in that order, with the full
      count from the join's return on. */
  lemma {:induction false} EveryInterleavingIsSafe(total: nat, schedule: seq<Thread>) returns (waited: Option<nat>)
    ensures Invariant(Run(Initial(total), schedule), waited) && Run(Initial(total), schedule).total == total
    decreases |schedule|
  {
    if schedule == [] {
      waited := None;
    } else {
      var n := |schedule| - 1;
      var before := EveryInterleavingIsSafe(total, schedule[..n]);
      waited := StepKeepsInvariant(Run(Initial(total), schedule[..n]), schedule[n], before);
    }
  }

  // ------------------------------------------------------------- termination

  function Remaining(p: Stopper): nat {
    match p
    case Running => 6
    case Cleared => 5
    case Signalled => 4
    case Joining => 3
    case Joined => 2
    case Purged => 1
    case Stopped => 0
  }

  function Work(s: State): nat {
    (if s.count <= s.total then s.total - s.count else 0) + (if s.finished then 0 else 1) + Remaining(s.stopper)
  }

  predicate Done(s: State) {
    s.finished && s.stopper.Stopped?
  }

  /** Every enabled step uses up work, a blocked one changes nothing, and until both threads are
      done one of them is enabled: the pair neither runs on nor deadlocks. */
  lemma Progress(s: State, t: Thread)
    ensures Enabled(s, t) ==> Work(Step(s, t)) < Work(s)
    ensures !Enabled(s, t) ==> Step(s, t) == s
    ensures Done(s) <==> !Enabled(s, Consumer) && !Enabled(s, Closer)
  {}

  function EnabledSteps(s: State, schedule: seq<Thread>): nat {
    if schedule == [] then 0
    else
      var n := |schedule| - 1;
      EnabledSteps(s, schedule[..n]) + if Enabled(Run(s, schedule[..n]), schedule[n]) then 1 else 0
  }

  /** So no schedule makes more than `total + 7` steps, and one that makes that many is done. */
  lemma {:induction false} Terminates(total: nat, schedule: seq<Thread>)
    ensures EnabledSteps(Initial(total), schedule) + Work(Run(Initial(total), schedule)) <= total + 7
    ensures EnabledSteps(Initial(total), schedule) == total + 7 ==> Done(Run(Initial(total), schedule))
    decreases |schedule|
  {
    if schedule != [] {
      var n := |schedule| - 1;
      Terminates(total, schedule[..n]);
      Progress(Run(Initial(total), schedule[..n]), schedule[n]);
    }
  }

  /** When both are done the whole story is told, whatever the interleaving was: the decode
      count is the full recovery, and only whether and where the join had to wait varies. */
  lemma FinalEvents(total: nat, schedule: seq<Thread>) returns (waited: Option<nat>)
    requires Done(Run(Initial(total), schedule))
    ensures var s := Run(Initial(total), schedule);
            && s.count == total && !s.active && !s.codec && !s.fault
            && s.events == Script(Stopped, total, waited) && (waited.Some? ==> waited.value <= total)
  {
    waited := EveryInterleavingIsSafe(total, schedule);
  }

  // ------------------------------------------------- the fixture's one schedule

  /** The two emulated contexts and the observations of the fixture. */
  class Stop {
    var state: State

    constructor (total: nat)
      ensures state == Initial(total)
    {
      state := Initial(total);
    }

    method Consume()
      requires Enabled(state, Consumer)
      modifies this
      ensures state == Step(old(state), Consumer)
    {
      if state.count < state.total {
        state := state.(count := state.count + 1, fault := state.fault || !state.codec);
      } else {
        state := state.(finished := true);
      }
    }

    method Close()
      requires Enabled(state, Closer)
      modifies this
      ensures state == Step(old(state), Closer)
    {
      state := StopperStep(state);
    }

    /** `run`: pause the consumer before decode `pause`, let the stopper run into its join, resume
        the consumer to its end, then the stopper. A pause the recovery never reaches fails the
        fixture's check. */
    method Run(pause: nat) returns (paused: bool)
      requires state == Initial(state.total)
      modifies this
      ensures paused <==> pause < old(state.total)
      ensures paused ==>
                && Done(state) && !state.fault && state.count == state.total == old(state.total)
                && !state.active && !state.codec
                && state.events == Script(Stopped, state.total, Some(pause))
    {
      var total := state.total;
      while state.count < pause && state.count < total
        invariant state == Initial(total).(count := state.count) && state.count <= total
        invariant state.count <= pause
        decreases total - state.count
      {
        Consume();
      }
      if state.count == total {
        return false;
      }
      Close();
      Close();
      Close();
      ghost var waiting := [Signal(false, true), JoinEnter(pause, true)];
      assert state.stopper == Joining && state.events == waiting;
      while !state.finished
        invariant state.total == total && pause <= state.count <= total
        invariant state == State(total, state.count, state.finished, false, true, Joining, waiting, false)
        invariant state.finished ==> state.count == total
        decreases total - state.count, !state.finished
      {
        Consume();
      }
      Close();
      Close();
      Close();
      paused := true;
    }
  }

  /** The fixture itself: after frame 0, frame 32769 is to be recovered. Every pause it names lies
      within the recovery, which makes 32769 decodes whatever the pause. */
  method RunFixture(pause: nat) returns (paused: bool, end: State)
    ensures paused <==> pause < 32769
    ensures paused ==>
              Done(end) && !end.fault && end.count == 32769 && end.events == Script(Stopped, 32769, Some(pause))
  {
    FixtureTotal();
    var stop := new Stop(GapPolicy.Decodes(GapPolicy.Tracking(1), 32769));
    paused := stop.Run(pause);
    end := stop.state;
  }

  /** The frame is 32768 ahead of the expected one. */
  lemma FixtureTotal()
    ensures GapPolicy.Decodes(GapPolicy.Tracking(1), 32769) == 32769
    ensures |GapPolicy.Decoded(GapPolicy.Tracking(1), 32769)| == 32769
  {}
}
