/** `queue_summary` of the pacing analyzer: cumulative counters of seven kinds of log lines,
    differenced per kind after a warm-up. Lines are taken as already parsed. */
module QueueSummary {
  import opened Bytes
  import opened Stretches

  /** The `name=number` fields of a line. */
  type Row = map<string, nat>
  type Kind = k: nat | 1 <= k <= 7 witness 1

  datatype Line = Line(kind: Kind, row: Row)

  datatype Report = Report(ms: int, delta: map<string, int>, last: Row)

  /** Maxima and return codes are not cumulative. */
  const EXCLUDED: set<string> := {"id", "rc", "wmax", "xmax", "gapmax", "tmax"}

  predicate HasId(row: Row) {
    "id" in row
  }

  type Sample = row: Row | HasId(row) witness map["id" := 0]

  // ---------------------------------------------------- what is measured

  /** The lines of one kind that carry an id, in order. */
  function Samples(lines: seq<Line>, kind: Kind): seq<Sample> {
    if lines == [] then []
    else
      var n := |lines| - 1;
      var before := Samples(lines[..n], kind);
      if lines[n].kind == kind && HasId(lines[n].row) then before + [lines[n].row] else before
  }

  function Shared(old_: Row, row: Row): set<string> {
    row.Keys * (old_.Keys - EXCLUDED)
  }

  function Delta(old_: Row, row: Row): map<string, int> {
    map k | k in Shared(old_, row) :: Minus(row[k], old_[k])
  }

  function Minus(a: int, b: int): int {
    a - b
  }

  predicate Decreased(old_: Row, row: Row) {
    exists k :: k in Shared(old_, row) && row[k] < old_[k]
  }

  predicate CodesZero(old_: Row, row: Row) {
    "rc" in row && row["rc"] == 0 && "rc" in old_ && old_["rc"] == 0
  }

  /** Pair `i - 1, i` is past the warm-up counted from the origin in force, its id advances, and
      kind 7 reports success twice. */
  predicate Considered(kind: Kind, rows: seq<Sample>, i: nat, warmup: real)
    requires 0 < i < |rows|
    decreases i, 1
  {
    && (rows[i - 1]["id"] - Origin(kind, rows, i - 1, warmup)) as real >= warmup * 1000.0
    && rows[i]["id"] > rows[i - 1]["id"]
    && (kind == 7 ==> CodesZero(rows[i - 1], rows[i]))
  }

  /** Row `i` renews the warm-up: it is the first, or a considered counter goes back at it. */
  predicate Restarts(kind: Kind, rows: seq<Sample>, i: nat, warmup: real)
    requires i < |rows|
  {
    i == 0 || (Considered(kind, rows, i, warmup) && Decreased(rows[i - 1], rows[i]))
  }

  /** The id the warm-up is counted from after row `i`: that of the last row that renewed it. */
  function Origin(kind: Kind, rows: seq<Sample>, i: nat, warmup: real): nat
    requires i < |rows|
    decreases i, 2
  {
    if i == 0 || (Considered(kind, rows, i, warmup) && Decreased(rows[i - 1], rows[i])) then rows[i]["id"]
    else Origin(kind, rows, i - 1, warmup)
  }

  predicate Measured(kind: Kind, rows: seq<Sample>, i: nat, warmup: real)
    requires 0 < i < |rows|
  {
    Considered(kind, rows, i, warmup) && !Decreased(rows[i - 1], rows[i])
  }

  /** The id steps of the measured pairs among the first `n` rows, added up. */
  function Elapsed(kind: Kind, rows: seq<Sample>, n: nat, warmup: real): (ms: int)
    requires n <= |rows|
    ensures ms >= 0
  {
    if n <= 1 then 0
    else Elapsed(kind, rows, n - 1, warmup)
         + if Measured(kind, rows, n - 1, warmup) then rows[n - 1]["id"] - rows[n - 2]["id"] else 0
  }

  /** The counters with a measured difference. */
  function Counters(kind: Kind, rows: seq<Sample>, n: nat, warmup: real): set<string>
    requires n <= |rows|
  {
    if n <= 1 then {}
    else Counters(kind, rows, n - 1, warmup)
         + if Measured(kind, rows, n - 1, warmup) then Shared(rows[n - 2], rows[n - 1]) else {}
  }

  /** One counter's measured differences, added up; none of them is negative. */
  function Total(kind: Kind, rows: seq<Sample>, n: nat, warmup: real, counter: string): (total: int)
    requires n <= |rows|
    ensures total >= 0
  {
    if n <= 1 then 0
    else Total(kind, rows, n - 1, warmup, counter)
         + if Measured(kind, rows, n - 1, warmup) && counter in Shared(rows[n - 2], rows[n - 1])
           then rows[n - 1][counter] - rows[n - 2][counter] else 0
  }

  function Totals(kind: Kind, rows: seq<Sample>, n: nat, warmup: real): map<string, int>
    requires n <= |rows|
  {
    map k | k in Counters(kind, rows, n, warmup) :: Total(kind, rows, n, warmup, k)
  }

  function Expected(kind: Kind, rows: seq<Sample>, warmup: real): Report
    requires rows != []
  {
    Report(Elapsed(kind, rows, |rows|, warmup), Totals(kind, rows, |rows|, warmup), rows[|rows| - 1])
  }

  function Summary(lines: seq<Line>, warmup: real): map<Kind, Report> {
    map k: Kind | 1 <= k <= 7 && Samples(lines, k) != [] :: Expected(k, Samples(lines, k), warmup)
  }

  // ------------------------------------------------------------ the loops

  method Accumulate(kind: Kind, rows: seq<Sample>, warmup: real) returns (report: Report)
    requires rows != []
    ensures report == Expected(kind, rows, warmup)
  {
    var totals: map<string, int>, elapsed, previous, origin: Option<nat> := map[], 0, None, None;
    for i := 0 to |rows|
      invariant i == 0 ==> previous == None && origin == None
      invariant i > 0 ==> previous == Some(rows[i - 1]) && origin == Some(Origin(kind, rows, i - 1, warmup))
      invariant elapsed == Elapsed(kind, rows, i, warmup)
      invariant totals == Totals(kind, rows, i, warmup)
    {
      var row := rows[i];
      if origin == None {
        origin := Some(row["id"]);
      }
      var before := previous;
      previous := Some(row);
      if before == None || (before.value["id"] - origin.value) as real < warmup * 1000.0 {
        Unmeasured(kind, rows, i, warmup);
        continue;
      }
      var old_ := before.value;
      var dt := Minus(row["id"], old_["id"]);
      if dt <= 0 {
        Unmeasured(kind, rows, i, warmup);
        continue;
      }
      var delta := Delta(old_, row);
      if kind == 7 && !CodesZero(old_, row) {
        Unmeasured(kind, rows, i, warmup);
        continue;
      }
      DeltaSigns(old_, row);
      if exists k :: k in delta && delta[k] < 0 {
        Unmeasured(kind, rows, i, warmup);
        origin := Some(row["id"]);
        continue;
      }
      elapsed := elapsed + dt;
      totals := map k | k in totals.Keys + delta.Keys ::
        (if k in totals then totals[k] else 0) + (if k in delta then delta[k] else 0);
      MeasuredTotals(kind, rows, i, warmup, delta);
    }
    report := Report(elapsed, totals, rows[|rows| - 1]);
  }

  lemma DeltaSigns(old_: Row, row: Row)
    ensures Decreased(old_, row) <==> exists k :: k in Delta(old_, row) && Delta(old_, row)[k] < 0
  {
    if k :| k in Shared(old_, row) && row[k] < old_[k] {
      assert k in Delta(old_, row) && Delta(old_, row)[k] < 0;
    }
  }

  lemma Unmeasured(kind: Kind, rows: seq<Sample>, i: nat, warmup: real)
    requires i < |rows| && (i > 0 ==> !Measured(kind, rows, i, warmup))
    ensures Elapsed(kind, rows, i + 1, warmup) == Elapsed(kind, rows, i, warmup)
    ensures Totals(kind, rows, i + 1, warmup) == Totals(kind, rows, i, warmup)
  {
    assert Counters(kind, rows, i + 1, warmup) == Counters(kind, rows, i, warmup);
  }

  lemma {:induction false} UnlistedIsZero(kind: Kind, rows: seq<Sample>, n: nat, warmup: real, counter: string)
    requires n <= |rows| && counter !in Counters(kind, rows, n, warmup)
    ensures Total(kind, rows, n, warmup, counter) == 0
  {
    if n > 1 {
      UnlistedIsZero(kind, rows, n - 1, warmup, counter);
    }
  }

  lemma MeasuredTotals(kind: Kind, rows: seq<Sample>, i: nat, warmup: real, delta: map<string, int>)
    requires 0 < i < |rows| && Measured(kind, rows, i, warmup)
    requires delta == Delta(rows[i - 1], rows[i])
    ensures var totals := Totals(kind, rows, i, warmup);
            Totals(kind, rows, i + 1, warmup)
            == map k | k in totals.Keys + delta.Keys ::
                 (if k in totals then totals[k] else 0) + (if k in delta then delta[k] else 0)
  {
    forall k | k in delta && k !in Counters(kind, rows, i, warmup)
      ensures Total(kind, rows, i, warmup, k) == 0
    {
      UnlistedIsZero(kind, rows, i, warmup, k);
    }
  }

  method Summarize(lines: seq<Line>, warmup: real) returns (out: map<Kind, Report>)
    ensures out == Summary(lines, warmup)
  {
    var groups: map<Kind, seq<Sample>> := map[];
    for i := 0 to |lines|
      invariant groups == map k: Kind | 1 <= k <= 7 && Samples(lines[..i], k) != [] :: Samples(lines[..i], k)
    {
      assert lines[..i + 1][..i] == lines[..i];
      var kind, row := lines[i].kind, lines[i].row;
      if "id" in row {
        var sample: Sample := row;
        var group: seq<Sample> := if kind in groups then groups[kind] else [];
        groups := groups[kind := group + [sample]];
      }
    }
    assert lines[..|lines|] == lines;
    out := map[];
    var kinds := groups.Keys;
    while kinds != {}
      invariant kinds <= groups.Keys
      invariant out == map k: Kind | k in groups.Keys - kinds :: Expected(k, groups[k], warmup)
    {
      var kind :| kind in kinds;
      var report := Accumulate(kind, groups[kind], warmup);
      out := out[kind := report];
      kinds := kinds - {kind};
    }
  }

  // ------------------------------------------------------------- properties

  /** The lines of one kind, with or without an id. */
  function OfKind(lines: seq<Line>, kind: Kind): seq<Line> {
    if lines == [] then []
    else
      var n := |lines| - 1;
      OfKind(lines[..n], kind) + if lines[n].kind == kind then [lines[n]] else []
  }

  lemma {:induction false} SamplesOfKind(lines: seq<Line>, kind: Kind)
    ensures Samples(OfKind(lines, kind), kind) == Samples(lines, kind)
    decreases |lines|
  {
    if lines != [] {
      var n := |lines| - 1;
      SamplesOfKind(lines[..n], kind);
      if lines[n].kind == kind {
        assert (OfKind(lines[..n], kind) + [lines[n]])[..|OfKind(lines[..n], kind)|] == OfKind(lines[..n], kind);
      } else {
        assert OfKind(lines[..n], kind) + [] == OfKind(lines[..n], kind);
      }
    }
  }

  /** Any two logs that keep each kind's own order have the same summary. */
  lemma InterleavingDoesNotMatter(a: seq<Line>, b: seq<Line>, warmup: real)
    requires forall k: Kind :: OfKind(a, k) == OfKind(b, k)
    ensures Summary(a, warmup) == Summary(b, warmup)
  {
    forall k: Kind
      ensures Samples(a, k) == Samples(b, k)
    {
      SamplesOfKind(a, k);
      SamplesOfKind(b, k);
    }
  }

  /** What a measured pair is: past the warm-up counted from the last row that renewed it, a
      positive step, no counter going back, and for kind 7 two successes. */
  lemma MeasuredPair(kind: Kind, rows: seq<Sample>, i: nat, warmup: real) returns (start: nat)
    requires 0 < i < |rows| && Measured(kind, rows, i, warmup)
    ensures start < i && Minus(rows[i - 1]["id"], rows[start]["id"]) as real >= warmup * 1000.0
    ensures Restarts(kind, rows, start, warmup) && forall j :: start < j <= i ==> !Restarts(kind, rows, j, warmup)
    ensures rows[i]["id"] > rows[i - 1]["id"]
    ensures forall k :: k in Shared(rows[i - 1], rows[i]) ==> rows[i][k] >= rows[i - 1][k]
    ensures kind == 7 ==> rows[i]["rc"] == 0 && rows[i - 1]["rc"] == 0
  {
    start := OriginRow(kind, rows, i - 1, warmup);
  }

  /** The origin is the id of the latest restart, and nothing restarted since. */
  lemma {:induction false} OriginRow(kind: Kind, rows: seq<Sample>, i: nat, warmup: real) returns (start: nat)
    requires i < |rows|
    ensures start <= i && Origin(kind, rows, i, warmup) == rows[start]["id"]
    ensures Restarts(kind, rows, start, warmup) && forall j :: start < j <= i ==> !Restarts(kind, rows, j, warmup)
  {
    if Restarts(kind, rows, i, warmup) {
      start := i;
    } else {
      start := OriginRow(kind, rows, i - 1, warmup);
    }
  }

  /** Reading more lines never lowers a total or the elapsed time, and never drops a counter. */
  lemma {:induction false} NeverDecreases(kind: Kind, rows: seq<Sample>, m: nat, n: nat, warmup: real, counter: string)
    requires m <= n <= |rows|
    ensures Elapsed(kind, rows, m, warmup) <= Elapsed(kind, rows, n, warmup)
    ensures Total(kind, rows, m, warmup, counter) <= Total(kind, rows, n, warmup, counter)
    ensures Counters(kind, rows, m, warmup) <= Counters(kind, rows, n, warmup)
    decreases n
  {
    if m < n {
      NeverDecreases(kind, rows, m, n - 1, warmup, counter);
    }
  }

  // -------------------------------------------------------------- segments

  /** The pair `i - 1, i` counts for the elapsed time, or for a counter that both its rows have. */
  predicate Counted(kind: Kind, rows: seq<Sample>, i: nat, warmup: real, counter: Option<string>)
    requires 0 < i < |rows|
  {
    && Measured(kind, rows, i, warmup)
    && (counter.Some? ==> counter.value in Shared(rows[i - 1], rows[i]))
  }

  /** The maximal stretches of counted pairs among the first `n` rows. */
  function Segments(kind: Kind, rows: seq<Sample>, n: nat, warmup: real, counter: Option<string>): seq<Segment>
    requires n <= |rows|
  {
    if n <= 1 then []
    else
      var before := Segments(kind, rows, n - 1, warmup, counter);
      if Counted(kind, rows, n - 1, warmup, counter) then Grow(before, n - 1) else before
  }

  /** The id, or the counter, of a row. */
  function Reading(row: Sample, counter: Option<string>): int {
    match counter
    case None => row["id"]
    case Some(name) => if name in row then row[name] else 0
  }

  function Readings(rows: seq<Sample>, counter: Option<string>): (readings: seq<int>)
    ensures |readings| == |rows| && forall i :: 0 <= i < |rows| ==> readings[i] == Reading(rows[i], counter)
  {
    seq(|rows|, i requires 0 <= i < |rows| => Reading(rows[i], counter))
  }

  /** The segments are in order and apart. */
  lemma {:induction false} SegmentsOrdered(kind: Kind, rows: seq<Sample>, n: nat, warmup: real, counter: Option<string>)
    requires n <= |rows|
    ensures Ordered(Segments(kind, rows, n, warmup, counter), n)
    decreases n
  {
    hide Counted;
    if n > 1 {
      SegmentsOrdered(kind, rows, n - 1, warmup, counter);
      GrowOrdered(Segments(kind, rows, n - 1, warmup, counter), n - 1);
    }
  }

  /** They cover exactly the counted pairs, so they are the maximal stretches. */
  lemma {:induction false} SegmentsCover(
    kind: Kind, rows: seq<Sample>, n: nat, warmup: real, counter: Option<string>, i: nat)
    requires 0 < i < n <= |rows|
    ensures Counted(kind, rows, i, warmup, counter) <==> Covered(Segments(kind, rows, n, warmup, counter), i)
    decreases n
  {
    hide Covered, Ordered, Grow, Counted;
    var before := Segments(kind, rows, n - 1, warmup, counter);
    SegmentsOrdered(kind, rows, n - 1, warmup, counter);
    if i < n - 1 {
      SegmentsCover(kind, rows, n - 1, warmup, counter, i);
    } else {
      NoneInside(before, n - 1);
    }
    GrowCovers(before, n - 1, i);
  }

  /** What is added up for the elapsed time or a counter. */
  function Sum(kind: Kind, rows: seq<Sample>, n: nat, warmup: real, counter: Option<string>): int
    requires n <= |rows|
  {
    match counter
    case None => Elapsed(kind, rows, n, warmup)
    case Some(name) => Total(kind, rows, n, warmup, name)
  }

  lemma CountedAdds(kind: Kind, rows: seq<Sample>, i: nat, warmup: real, counter: Option<string>)
    requires 0 < i < |rows|
    ensures Sum(kind, rows, i + 1, warmup, counter)
         == Sum(kind, rows, i, warmup, counter)
            + if Counted(kind, rows, i, warmup, counter)
              then Reading(rows[i], counter) - Reading(rows[i - 1], counter) else 0
  {
    hide Measured;
  }

  /** The elapsed time is the sum over the maximal measured segments of last id minus first, and each
      counter that over the maximal measured stretches in which it is shared. */
  lemma {:induction false} SumIsGains(
    kind: Kind, rows: seq<Sample>, n: nat, warmup: real, counter: Option<string>)
    requires n <= |rows|
    ensures Ordered(Segments(kind, rows, n, warmup, counter), |rows|)
    ensures Sum(kind, rows, n, warmup, counter)
         == Gains(Readings(rows, counter), Segments(kind, rows, n, warmup, counter))
    decreases n
  {
    hide Counted, Grow, Ordered, Sum, Segments, Gains, Readings;
    SegmentsOrdered(kind, rows, n, warmup, counter);
    OrderedWider(Segments(kind, rows, n, warmup, counter), n, |rows|);
    if n <= 1 {
      NothingYet(kind, rows, n, warmup, counter);
    } else {
      SumIsGains(kind, rows, n - 1, warmup, counter);
      SegmentsOrdered(kind, rows, n - 1, warmup, counter);
      CountedAdds(kind, rows, n - 1, warmup, counter);
      SegmentsNext(kind, rows, n, warmup, counter);
      if Counted(kind, rows, n - 1, warmup, counter) {
        GrowGains(Readings(rows, counter), Segments(kind, rows, n - 1, warmup, counter), n - 1);
      }
    }
  }

  lemma NothingYet(kind: Kind, rows: seq<Sample>, n: nat, warmup: real, counter: Option<string>)
    requires n <= |rows| && n <= 1
    ensures Sum(kind, rows, n, warmup, counter) == 0 && Segments(kind, rows, n, warmup, counter) == []
    ensures Gains(Readings(rows, counter), []) == 0
  {}

  lemma SegmentsNext(kind: Kind, rows: seq<Sample>, n: nat, warmup: real, counter: Option<string>)
    requires 1 < n <= |rows|
    ensures var before := Segments(kind, rows, n - 1, warmup, counter);
            Segments(kind, rows, n, warmup, counter)
            == if Counted(kind, rows, n - 1, warmup, counter) then Grow(before, n - 1) else before
  {}

  /** So a kind's report is made of those sums, for the elapsed time and for every counter that some
      measured pair shares, and of the last row. */
  lemma ReportSums(kind: Kind, rows: seq<Sample>, warmup: real, k: string)
    requires rows != []
    ensures var report := Expected(kind, rows, warmup);
            && Ordered(Segments(kind, rows, |rows|, warmup, None), |rows|)
            && report.ms == Gains(Readings(rows, None), Segments(kind, rows, |rows|, warmup, None))
            && report.last == rows[|rows| - 1]
            && (k in report.delta <==> exists i :: 0 < i < |rows| && Counted(kind, rows, i, warmup, Some(k)))
            && Ordered(Segments(kind, rows, |rows|, warmup, Some(k)), |rows|)
            && (k in report.delta ==>
                  report.delta[k] == Gains(Readings(rows, Some(k)), Segments(kind, rows, |rows|, warmup, Some(k))))
  {
    SumIsGains(kind, rows, |rows|, warmup, None);
    SumIsGains(kind, rows, |rows|, warmup, Some(k));
    CountersShared(kind, rows, |rows|, warmup, k);
    hide Counted, Gains, Segments, Elapsed, Total, Counters;
  }

  lemma {:induction false} CountersShared(kind: Kind, rows: seq<Sample>, n: nat, warmup: real, k: string)
    requires n <= |rows|
    ensures k in Counters(kind, rows, n, warmup) <==> exists i :: 0 < i < n && Counted(kind, rows, i, warmup, Some(k))
    decreases n
  {
    hide Measured;
    if n > 1 {
      CountersShared(kind, rows, n - 1, warmup, k);
      if k in Counters(kind, rows, n, warmup) && k !in Counters(kind, rows, n - 1, warmup) {
        assert Counted(kind, rows, n - 1, warmup, Some(k));
      }
    }
  }

  // ------------------------------------------------------ which pairs count

  /** A field both rows have, other than the id, the maxima and the return code. */
  predicate BothHave(a: Row, b: Row, k: string) {
    k in a && k in b && k !in {"id", "rc", "wmax", "xmax", "gapmax", "tmax"}
  }

  /** Past the warm-up counted from row `start`, advancing, and for kind 7 with two successes. */
  predicate Eligible(kind: Kind, rows: seq<Sample>, start: nat, i: nat, warmup: real)
    requires start < i < |rows|
  {
    && Minus(rows[i - 1]["id"], rows[start]["id"]) as real >= warmup * 1000.0
    && rows[i]["id"] > rows[i - 1]["id"]
    && (kind == 7 ==>
          "rc" in rows[i] && rows[i]["rc"] == 0 && "rc" in rows[i - 1] && rows[i - 1]["rc"] == 0)
  }

  /** A pair is measured exactly when it is eligible, counting from the last row that renewed the
      warm-up, and no counter goes back; it renews the warm-up exactly when one does. */
  lemma MeasuredIff(kind: Kind, rows: seq<Sample>, start: nat, i: nat, warmup: real)
    requires start < i < |rows| && Restarts(kind, rows, start, warmup)
    requires forall j :: start < j < i ==> !Restarts(kind, rows, j, warmup)
    ensures Measured(kind, rows, i, warmup)
       <==> Eligible(kind, rows, start, i, warmup)
            && forall k :: BothHave(rows[i - 1], rows[i], k) ==> rows[i][k] >= rows[i - 1][k]
    ensures Restarts(kind, rows, i, warmup)
       <==> Eligible(kind, rows, start, i, warmup)
            && exists k :: BothHave(rows[i - 1], rows[i], k) && rows[i][k] < rows[i - 1][k]
  {
    var found := OriginRow(kind, rows, i - 1, warmup);
    assert found == start;
    var a, b := rows[i - 1], rows[i];
    assert forall k :: BothHave(a, b, k) <==> k in Shared(a, b);
    hide Origin;
    assert Considered(kind, rows, i, warmup) <==> Eligible(kind, rows, start, i, warmup);
  }

  /** The samples of a kind are its lines that carry an id, in order. */
  lemma {:induction false} SamplesConcat(a: seq<Line>, b: seq<Line>, kind: Kind)
    ensures Samples(a + b, kind) == Samples(a, kind) + Samples(b, kind)
    ensures |b| == 1 ==>
              Samples(b, kind) == if b[0].kind == kind && "id" in b[0].row then [b[0].row] else []
    decreases |b|
  {
    if b == [] {
      assert a + b == a;
    } else {
      var n := |b| - 1;
      assert (a + b)[..|a| + n] == a + b[..n];
      SamplesConcat(a, b[..n], kind);
    }
  }

  /** There is a report for every kind that has a line with an id, and for no other. */
  lemma SummaryKinds(lines: seq<Line>, warmup: real, kind: Kind)
    ensures kind in Summary(lines, warmup)
       <==> exists i :: 0 <= i < |lines| && lines[i].kind == kind && "id" in lines[i].row
    ensures kind in Summary(lines, warmup) ==>
              Samples(lines, kind) != []
              && Summary(lines, warmup)[kind] == Expected(kind, Samples(lines, kind), warmup)
  {
    SampleExists(lines, kind);
    hide Expected, Samples;
  }

  lemma {:induction false} SampleExists(lines: seq<Line>, kind: Kind)
    ensures Samples(lines, kind) != []
       <==> exists i :: 0 <= i < |lines| && lines[i].kind == kind && "id" in lines[i].row
    decreases |lines|
  {
    if lines != [] {
      var n := |lines| - 1;
      SampleExists(lines[..n], kind);
      if i :| 0 <= i < n && lines[i].kind == kind && "id" in lines[i].row {
        assert lines[..n][i] == lines[i];
      }
    }
  }
}
