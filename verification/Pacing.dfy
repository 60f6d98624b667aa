/** Paced production: one frame per tick of a rate, judged by the readings of a monotonic clock. */
module Pacing {
  /** The clock's readings over a run, in the order in which they are taken. */
  type Clock = nat -> real

  ghost predicate Forward(clock: Clock) {
    forall i: nat, j: nat :: i <= j ==> clock(i) <= clock(j)
  }

  /** The loop condition on one reading. */
  predicate Due(clock: Clock, reading: nat, begin: real, next: nat, rate: nat)
    requires rate > 0
  {
    clock(reading) - begin >= next as real / rate as real
  }

  function Min(a: int, b: int): int {
    if a < b then a else b
  }

  /** As many frames as the time of the last reading calls for. */
  ghost predicate OnTime(clock: Clock, begin: real, rate: nat, frames: nat, next: nat, ticks: nat) {
    && ticks > 0 && clock(ticks - 1) >= begin
    && next == Min(frames, ((clock(ticks - 1) - begin) * rate as real).Floor + 1)
  }

  /** No frame too early. */
  ghost predicate NotEarly(clock: Clock, begin: real, rate: nat, next: nat, ticks: nat) {
    && ticks > 0 && clock(ticks - 1) >= begin
    && (clock(ticks - 1) - begin) * rate as real >= (next - 1) as real
  }

  lemma Elapsed(clock: Clock, begin: real, rate: nat, ticks: nat)
    requires rate > 0 && clock(ticks) >= begin
    ensures (clock(ticks) - begin) * rate as real >= 0.0
  {}

  lemma DueTimes(t: real, next: nat, rate: nat)
    requires rate > 0
    ensures t >= next as real / rate as real <==> t * rate as real >= next as real
  {
    var r := rate as real;
    var q := next as real / r;
    assert q * r == next as real;
    if t >= q {
      assert (t - q) * r >= 0.0;
    } else {
      assert (q - t) * r > 0.0;
    }
  }

  lemma FirstReading(clock: Clock, rate: nat, ticks: nat)
    ensures NotEarly(clock, clock(ticks), rate, 0, ticks + 1)
  {}

  lemma OnTimeNotEarly(clock: Clock, begin: real, rate: nat, frames: nat, next: nat, ticks: nat)
    requires OnTime(clock, begin, rate, frames, next, ticks)
    ensures NotEarly(clock, begin, rate, next, ticks)
  {}

  /** A frame that is due keeps production from being early, through a second reading. */
  lemma DueKeeps(clock: Clock, begin: real, rate: nat, next: nat, ticks: nat)
    requires rate > 0 && Forward(clock) && NotEarly(clock, begin, rate, next, ticks)
    requires Due(clock, ticks, begin, next, rate)
    ensures NotEarly(clock, begin, rate, next + 1, ticks + 2)
  {
    DueTimes(clock(ticks + 1) - begin, next, rate);
    assert clock(ticks - 1) <= clock(ticks) <= clock(ticks + 1);
  }

  /** A frame that is not due makes production punctual. */
  lemma UndueStops(clock: Clock, begin: real, rate: nat, frames: nat, next: nat, ticks: nat)
    requires rate > 0 && Forward(clock) && NotEarly(clock, begin, rate, next, ticks)
    requires next < frames && !Due(clock, ticks, begin, next, rate)
    ensures OnTime(clock, begin, rate, frames, next, ticks + 1)
  {
    DueTimes(clock(ticks) - begin, next, rate);
    assert clock(ticks - 1) <= clock(ticks);
    var before, now := (clock(ticks - 1) - begin) * rate as real, (clock(ticks) - begin) * rate as real;
    assert before <= now by {
      assert (clock(ticks) - clock(ticks - 1)) * rate as real >= 0.0;
    }
  }

  /** So does having no more frames. */
  lemma DoneStops(clock: Clock, begin: real, rate: nat, frames: nat, ticks: nat)
    requires rate > 0 && NotEarly(clock, begin, rate, frames, ticks)
    ensures OnTime(clock, begin, rate, frames, frames, ticks)
  {
    Elapsed(clock, begin, rate, ticks - 1);
  }
}
