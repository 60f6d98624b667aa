/** Recovery of lost audio frames. The deciding decoder is not part of the repository; the
    policy here is the generalisation of the table in `audio-gap-stimuli.py`, which fixes its
    boundaries (`TableAgrees`): the first frame is decoded alone, a frame at most 32768 ahead
    of the expected one is decoded together with everything before it, any other is dropped. */
module GapPolicy {
  type Id = i: nat | i < 65536

  datatype State = Fresh | Tracking(next: Id)
  datatype Action = Frame(id: Id) | Restart

  const FARTHEST: nat := 32768

  /** How far `id` is ahead of `next` on the circle of ids. */
  function Gap(id: int, next: int): nat {
    (id - next) % 65536
  }

  predicate Accepted(s: State, id: Id) {
    s.Fresh? || Gap(id, s.next) <= FARTHEST
  }

  function Decodes(s: State, id: Id): nat {
    if s.Fresh? then 1 else if Accepted(s, id) then Gap(id, s.next) + 1 else 0
  }

  /** `count` ids in circular order from `start`. */
  function Consecutive(start: Id, count: nat): (ids: seq<Id>)
    ensures |ids| == count
  {
    seq(count, k requires 0 <= k => (start + k) % 65536)
  }

  /** The ids decoded for one arrival, the recovered ones first. */
  function Decoded(s: State, id: Id): seq<Id> {
    Consecutive(if s.Fresh? then id else s.next, Decodes(s, id))
  }

  function After(s: State, id: Id): State {
    if Accepted(s, id) then Tracking((id + 1) % 65536) else s
  }

  /** The decoder's recovery state and the trace of the codec calls it makes. */
  class Decoder {
    var first: bool
    var next: Id
    var trace: seq<Id>

    function State(): State
      reads this
    {
      if first then Fresh else Tracking(next)
    }

    constructor ()
      ensures State() == Fresh && trace == []
    {
      first, next, trace := true, 0, [];
    }

    method Restart()
      modifies this
      ensures State() == Fresh && trace == old(trace)
    {
      first := true;
    }

    method Feed(id: Id) returns (count: nat)
      modifies this
      ensures count == Decodes(old(State()), id)
      ensures State() == After(old(State()), id)
      ensures trace == old(trace) + Decoded(old(State()), id)
    {
      count := 0;
      var gap := if first then 0 else Gap(id, next);
      if gap > FARTHEST {
        assert Decoded(old(State()), id) == [];
        return;
      }
      var start := if first then id else next;
      while count < gap + 1
        invariant count <= gap + 1
        invariant first == old(first) && next == old(next)
        invariant trace == old(trace) + Consecutive(start, count)
      {
        trace := trace + [(start + count) % 65536];
        count := count + 1;
      }
      first, next := false, (id + 1) % 65536;
    }
  }

  // -------------------------------------------------------------- whole runs

  function StateAfter(s: State, arrivals: seq<Id>): State {
    if arrivals == [] then s
    else
      var n := |arrivals| - 1;
      After(StateAfter(s, arrivals[..n]), arrivals[n])
  }

  function Trace(s: State, arrivals: seq<Id>): seq<Id> {
    if arrivals == [] then []
    else
      var n := |arrivals| - 1;
      Trace(s, arrivals[..n]) + Decoded(StateAfter(s, arrivals[..n]), arrivals[n])
  }

  lemma LastId(start: Id, next: Id, id: Id, count: nat)
    requires (start + count) % 65536 == next
    ensures (start + count + Gap(id, next) + 1) % 65536 == (id + 1) % 65536
  {}

  /** Whatever arrives late, twice, never or across the wrap, the codec sees each id from the
      first one on exactly once and in order: call k decodes the unrolled id `first + k`, and
      the expected id is the one after the last call. */
  lemma {:induction false} TraceIsConsecutive(arrivals: seq<Id>)
    requires arrivals != []
    ensures Trace(Fresh, arrivals) == Consecutive(arrivals[0], |Trace(Fresh, arrivals)|)
    ensures StateAfter(Fresh, arrivals) == Tracking((arrivals[0] + |Trace(Fresh, arrivals)|) % 65536)
    decreases |arrivals|
  {
    var n := |arrivals| - 1;
    var id := arrivals[n];
    if n == 0 {
      assert arrivals[..0] == [];
    } else {
      var before := arrivals[..n];
      TraceIsConsecutive(before);
      var s := StateAfter(Fresh, before);
      var count := |Trace(Fresh, before)|;
      if Accepted(s, id) {
        LastId(arrivals[0], s.next, id, count);
        Appended(arrivals[0], count, s.next, Decodes(s, id));
      }
    }
  }

  lemma Appended(start: Id, count: nat, next: Id, more: nat)
    requires next == (start + count) % 65536
    ensures Consecutive(start, count) + Consecutive(next, more) == Consecutive(start, count + more)
  {
    var whole := Consecutive(start, count + more);
    forall k | count <= k < count + more
      ensures whole[k] == Consecutive(next, more)[k - count]
    {}
  }

  /** The arrival that was decoded last. */
  function LastAccepted(arrivals: seq<Id>): Id
    requires arrivals != []
    decreases |arrivals|
  {
    var n := |arrivals| - 1;
    if n == 0 || Accepted(StateAfter(Fresh, arrivals[..n]), arrivals[n]) then arrivals[n]
    else LastAccepted(arrivals[..n])
  }

  /** The distance from the first frame to the furthest one reached, with ids unrolled to unbounded
      integers: every arrival within reach ahead moves it on, wherever the ids wrap. */
  function Reach(arrivals: seq<Id>): nat
    requires arrivals != []
    decreases |arrivals|
  {
    var n := |arrivals| - 1;
    if n == 0 then 0
    else
      var before := Reach(arrivals[..n]);
      var ahead := Gap(arrivals[n], arrivals[0] + before + 1);
      if ahead <= FARTHEST then before + ahead + 1 else before
  }

  /** The number of codec calls is one more than that distance, whichever frames between were lost,
      and the distance is, up to whole turns, that between the first frame and the last accepted. */
  lemma {:induction false} TotalIsReach(arrivals: seq<Id>)
    requires arrivals != []
    ensures |Trace(Fresh, arrivals)| == Reach(arrivals) + 1
    ensures LastAccepted(arrivals) == (arrivals[0] + Reach(arrivals)) % 65536
    decreases |arrivals|
  {
    var n := |arrivals| - 1;
    var id := arrivals[n];
    if n == 0 {
      assert arrivals[..0] == [];
    } else {
      var before := arrivals[..n];
      TotalIsReach(before);
      TraceIsConsecutive(before);
      var expected := arrivals[0] + Reach(before) + 1;
      var s := StateAfter(Fresh, before);
      OneArrival(arrivals);
      hide Trace, StateAfter, Reach, LastAccepted;
      assert s == Tracking(expected % 65536);
      SameGap(id, expected);
      Arrives(id, expected);
    }
  }

  lemma OneArrival(arrivals: seq<Id>)
    requires |arrivals| > 1
    ensures var n := |arrivals| - 1;
            var before, s := arrivals[..n], StateAfter(Fresh, arrivals[..n]);
            var ahead := Gap(arrivals[n], arrivals[0] + Reach(before) + 1);
            && |Trace(Fresh, arrivals)| == |Trace(Fresh, before)| + Decodes(s, arrivals[n])
            && Reach(arrivals) == (if ahead <= FARTHEST then Reach(before) + ahead + 1 else Reach(before))
            && LastAccepted(arrivals) == (if Accepted(s, arrivals[n]) then arrivals[n] else LastAccepted(before))
  {}

  /** Up to whole turns of 65536, that number is the distance between the ends, whichever frames
      between were lost. */
  lemma TotalFromEnds(arrivals: seq<Id>)
    requires arrivals != []
    ensures var first: int, last: int := arrivals[0], LastAccepted(arrivals);
            |Trace(Fresh, arrivals)| % 65536 == (last - first + 1) % 65536
  {
    hide Trace, Reach, LastAccepted;
    TotalIsReach(arrivals);
    var first: int, reach := arrivals[0], Reach(arrivals);
    var turns := (first + reach) / 65536;
    assert LastAccepted(arrivals) - first + 1 == reach + 1 - 65536 * turns;
  }

  lemma SameGap(id: Id, next: nat)
    ensures Gap(id, next % 65536) == Gap(id, next)
  {
    var turns := next / 65536;
    assert id - next % 65536 == (id - next) + 65536 * turns;
  }

  lemma Arrives(id: Id, next: nat)
    ensures (next + Gap(id, next)) % 65536 == id
  {
    var turns := (id - next) / 65536;
    assert next + Gap(id, next) == id - 65536 * turns;
  }

  /** The closed form of the audio plans. */
  function ClosedForm(ids: seq<Id>): nat
    requires ids != []
  {
    var first: int, last: int := ids[0], ids[|ids| - 1];
    (last - first + 1) % 65536
  }

  /** The last frame listed is within reach of those before it, or repeats the furthest of them. */
  predicate EndsAhead(ids: seq<Id>)
    requires ids != []
  {
    var n := |ids| - 1;
    n == 0
    || Gap(ids[n], ids[0] + Reach(ids[..n]) + 1) <= FARTHEST
    || ids[n] == (ids[0] + Reach(ids[..n])) % 65536
  }

  /** `(ids[-1] - ids[0] + 1) & 65535` is the number of codec calls exactly for the plans that end
      ahead and reach less than a turn from their first frame. */
  lemma ClosedFormIff(ids: seq<Id>)
    requires ids != []
    ensures |Trace(Fresh, ids)| == ClosedForm(ids) <==> EndsAhead(ids) && Reach(ids) < 65535
  {
    hide Trace, Reach, EndsAhead;
    TotalIsReach(ids);
    EndsAheadIff(ids);
    LessThanATurn(ids[0], Reach(ids), ids[|ids| - 1]);
  }

  lemma EndsAheadIff(ids: seq<Id>)
    requires ids != []
    ensures EndsAhead(ids) <==> ids[|ids| - 1] == (ids[0] + Reach(ids)) % 65536
  {
    var n := |ids| - 1;
    if n > 0 {
      Arrives(ids[n], ids[0] + Reach(ids[..n]) + 1);
    }
  }

  lemma LessThanATurn(first: Id, reach: nat, last: Id)
    ensures reach + 1 == (last - first + 1) % 65536 <==> last == (first + reach) % 65536 && reach < 65535
  {
    var turns := (last - first + 1) / 65536;
    assert (last - first + 1) % 65536 == last - first + 1 - 65536 * turns;
  }

  /** Neither half of the condition can be spared: a frame after more than a turn, which is decoded,
      and a late one, which is not. */
  lemma ClosedFormFails()
    ensures |Trace(Fresh, [0, 32769, 1])| == 65538 && ClosedForm([0, 32769, 1]) == 2
    ensures EndsAhead([0, 32769, 1]) && LastAccepted([0, 32769, 1]) == 1
    ensures |Trace(Fresh, [0, 1, 0])| == 2 && ClosedForm([0, 1, 0]) == 1
    ensures Reach([0, 1, 0]) == 1 && !EndsAhead([0, 1, 0])
  {
    var far: seq<Id> := [0, 32769, 1];
    var late: seq<Id> := [0, 1, 0];
    hide Trace;
    ReachOfThree(0, 32769, 1);
    ReachOfThree(0, 1, 0);
    TotalIsReach(far);
    TotalIsReach(late);
  }

  lemma ReachOfThree(a: Id, b: Id, c: Id)
    ensures var ids := [a, b, c];
            var two := if Gap(b, a + 1) <= FARTHEST then Gap(b, a + 1) + 1 else 0;
            var ahead := Gap(c, a + two + 1);
            Reach(ids[..2]) == two && Reach(ids) == if ahead <= FARTHEST then two + ahead + 1 else two
  {
    var ids: seq<Id> := [a, b, c];
    assert ids[..2] == [a, b] && ids[..2][..1] == [a];
  }

  /** A dropped frame is a late one: fewer than 32768 ids behind, and if the stream is at least
      that long, a duplicate of something already decoded. */
  lemma DroppedIsLate(arrivals: seq<Id>, id: Id)
    requires arrivals != []
    ensures var s := StateAfter(Fresh, arrivals);
            var trace := Trace(Fresh, arrivals);
            var behind := Gap(s.next, id);
            && (!Accepted(s, id) <==> 1 <= behind < 32768)
            && (1 <= behind <= |trace| ==> trace[|trace| - behind] == id)
  {
    TraceIsConsecutive(arrivals);
    var s := StateAfter(Fresh, arrivals);
    var count := |Trace(Fresh, arrivals)|;
    var behind := Gap(s.next, id);
    BothWays(id, s.next);
    if 1 <= behind <= count {
      BehindNext(arrivals[0], count, s.next, id);
    }
  }

  lemma BehindNext(start: Id, count: nat, next: Id, id: Id)
    requires next == (start + count) % 65536 && 1 <= Gap(next, id) <= count
    ensures Consecutive(start, count)[count - Gap(next, id)] == id
  {
    assert (start + (count - Gap(next, id))) % 65536 == id;
  }

  lemma BothWays(id: Id, next: Id)
    ensures Gap(id, next) > FARTHEST <==> 1 <= Gap(next, id) < 32768
  {}

  // --------------------------------------------------------------- the table

  function Counts(s: State, actions: seq<Action>): seq<nat>
    decreases |actions|
  {
    if actions == [] then []
    else match actions[0]
      case Restart => [0] + Counts(Fresh, actions[1..])
      case Frame(id) => [Decodes(s, id)] + Counts(After(s, id), actions[1..])
  }

  lemma OneFrame(s: State, id: Id)
    ensures Counts(s, [Frame(id)]) == [Decodes(s, id)]
  {
    assert [Frame(id)][1..] == [];
  }

  lemma TwoFrames(a: Id, b: Id)
    ensures Counts(Fresh, [Frame(a), Frame(b)]) == [1, Decodes(Tracking((a + 1) % 65536), b)]
  {
    assert [Frame(a), Frame(b)][1..] == [Frame(b)];
    OneFrame(After(Fresh, a), b);
  }

  lemma ThreeFrames(a: Id, b: Id, c: Id)
    ensures var s := Tracking((a + 1) % 65536);
            Counts(Fresh, [Frame(a), Frame(b), Frame(c)]) == [1, Decodes(s, b), Decodes(After(s, b), c)]
  {
    var s := After(Fresh, a);
    assert [Frame(a), Frame(b), Frame(c)][1..] == [Frame(b), Frame(c)];
    assert [Frame(b), Frame(c)][1..] == [Frame(c)];
    OneFrame(After(s, b), c);
  }

  /** Every row of the table. */
  lemma TableAgrees()
    ensures Counts(Fresh, [Frame(40000)]) == [1]
    ensures Counts(Fresh, [Frame(0), Frame(1)]) == [1, 1]
    ensures Counts(Fresh, [Frame(0), Frame(4)]) == [1, 4]
    ensures Counts(Fresh, [Frame(0), Frame(32768)]) == [1, 32768]
    ensures Counts(Fresh, [Frame(0), Frame(32769)]) == [1, 32769]
    ensures Counts(Fresh, [Frame(0), Frame(32770), Frame(1)]) == [1, 0, 1]
    ensures Counts(Fresh, [Frame(65534), Frame(1)]) == [1, 3]
    ensures Counts(Fresh, [Frame(0), Frame(65535), Frame(1)]) == [1, 0, 1]
    ensures Counts(Fresh, [Frame(0), Restart, Frame(32769)]) == [1, 0, 1]
  {
    OneFrame(Fresh, 40000);
    TwoFrames(0, 1);
    TwoFrames(0, 4);
    TwoFrames(0, 32768);
    TwoFrames(0, 32769);
    TwoFrames(65534, 1);
    ThreeFrames(0, 32770, 1);
    ThreeFrames(0, 65535, 1);
    assert [Frame(0), Restart, Frame(32769)][1..] == [Restart, Frame(32769)];
    assert [Restart, Frame(32769)][1..] == [Frame(32769)];
    OneFrame(Fresh, 32769);
  }
}
