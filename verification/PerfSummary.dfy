/** The second half of `summarize` in the performance analyzer: cumulative counters of the
    assembled snapshots are differenced within segments of one stream, mode and epoch. */
module PerfSummary {
  import opened Bytes
  import opened GroupAssembly
  import opened Stretches

  const REQUIRED: set<string> := {
    "id", "s", "e", "b", "hw", "w", "h", "dec", "show", "repl", "drop", "n", "prep", "age", "wait", "decode", "draws",
    "redraw", "begin", "ui", "present", "uploads", "bytes", "downloads", "imports", "maps", "pools", "busy", "image",
    "mapped"}

  const COUNTERS: set<string> := {
    "show", "dec", "repl", "drop", "n", "prep", "age", "wait", "decode", "draws", "redraw", "begin", "ui", "present",
    "uploads", "bytes", "downloads", "imports"}

  /** A field as an integer. Every field of a row that is complete is a number except `b`. */
  function Int(row: Row, name: string): int {
    if name in row && row[name].Number? then row[name].n else 0
  }

  function Field(row: Row, name: string): Value {
    if name in row then row[name] else Number(0)
  }

  type Key = seq<Value>

  /** Backend, decoder and size. */
  function Mode(row: Row): Key {
    [Field(row, "b"), Field(row, "hw"), Field(row, "w"), Field(row, "h")]
  }

  /** Session, epoch and mode. */
  function KeyOf(row: Row): Key {
    [Field(row, "s"), Field(row, "e")] + Mode(row)
  }

  function Complete(rows: seq<Row>): seq<Row> {
    if rows == [] then []
    else
      var n := |rows| - 1;
      if REQUIRED <= rows[n].Keys then Complete(rows[..n]) + [rows[n]] else Complete(rows[..n])
  }

  // -------------------------------------------------------- what is measured

  /** Warm-up in seconds, and the counters to difference. */
  datatype Config = Config(warmup: real, counters: set<string>)

  /** Row `i` starts over: another key, or an id that does not advance. */
  predicate Breaks(rows: seq<Row>, i: nat)
    requires i < |rows|
  {
    i == 0 || KeyOf(rows[i]) != KeyOf(rows[i - 1]) || Int(rows[i], "id") <= Int(rows[i - 1], "id")
  }

  predicate GoesBack(rows: seq<Row>, i: nat, c: Config)
    requires 0 < i < |rows|
  {
    exists k :: k in c.counters && Int(rows[i], k) < Int(rows[i - 1], k)
  }

  /** Pair `i - 1, i` continues a segment and is past the warm-up of that segment. */
  predicate Warm(rows: seq<Row>, i: nat, c: Config)
    requires 0 < i < |rows|
    decreases i, 1
  {
    !Breaks(rows, i) && (Int(rows[i - 1], "id") - Origin(rows, i - 1, c)) as real >= c.warmup * 1000.0
  }

  /** Row `i` renews the warm-up: it starts over, or a counter goes back at it after the warm-up. */
  predicate Restarts(rows: seq<Row>, i: nat, c: Config)
    requires i < |rows|
  {
    Breaks(rows, i) || (Warm(rows, i, c) && GoesBack(rows, i, c))
  }

  /** The id the warm-up is counted from after row `i`: that of the last row that renewed it. */
  function Origin(rows: seq<Row>, i: nat, c: Config): int
    requires i < |rows|
    decreases i, 2
  {
    if Breaks(rows, i) || (Warm(rows, i, c) && GoesBack(rows, i, c)) then Int(rows[i], "id")
    else Origin(rows, i - 1, c)
  }

  predicate Measured(rows: seq<Row>, i: nat, c: Config)
    requires 0 < i < |rows|
  {
    Warm(rows, i, c) && !GoesBack(rows, i, c)
  }

  /** One field's differences over the measured pairs among the first `n` rows, added up. */
  function Total(rows: seq<Row>, n: nat, c: Config, name: string): int
    requires n <= |rows|
  {
    if n <= 1 then 0
    else Total(rows, n - 1, c, name)
         + if Measured(rows, n - 1, c) then Int(rows[n - 1], name) - Int(rows[n - 2], name) else 0
  }

  /** The first and last rows of the measured pairs, in order. */
  function Used(rows: seq<Row>, n: nat, c: Config): seq<Row>
    requires n <= |rows|
  {
    if n <= 1 then []
    else if Measured(rows, n - 1, c) then Used(rows, n - 1, c) + [rows[n - 2], rows[n - 1]]
    else Used(rows, n - 1, c)
  }

  ghost predicate ModesOf(modes: set<Key>, rows: seq<Row>, n: nat, c: Config)
    requires n <= |rows|
  {
    forall mode :: mode in modes <==> exists i :: 0 < i < n && Measured(rows, i, c) && Mode(rows[i]) == mode
  }

  datatype Report = Report(snapshots: nat, ms: int, modes: set<Key>, totals: map<string, int>, used: seq<Row>)

  method Difference(rows: seq<Row>, c: Config) returns (report: Report)
    ensures report.snapshots == |rows|
    ensures report.ms == Total(rows, |rows|, c, "id")
    ensures report.totals.Keys == c.counters
    ensures forall k :: k in c.counters ==> report.totals[k] == Total(rows, |rows|, c, k)
    ensures report.used == Used(rows, |rows|, c)
    ensures ModesOf(report.modes, rows, |rows|, c)
  {
    hide Total, Used, ModesOf, KeyOf, Int;
    NoneYet(rows, c);
    var totals := map k | k in c.counters :: 0;
    var duration := 0;
    var first := 0;
    var previous: Option<(Key, Row)> := None;
    var modes: set<Key> := {};
    var used: seq<Row> := [];
    for i := 0 to |rows|
      invariant previous == if i == 0 then None else Some((KeyOf(rows[i - 1]), rows[i - 1]))
      invariant i > 0 ==> first == Origin(rows, i - 1, c)
      invariant duration == Total(rows, i, c, "id")
      invariant totals.Keys == c.counters && forall k :: k in c.counters ==> totals[k] == Total(rows, i, c, k)
      invariant used == Used(rows, i, c)
      invariant ModesOf(modes, rows, i, c)
    {
      PairCounts(rows, i, c, modes);
      var row := rows[i];
      var mode, key := Mode(row), KeyOf(row);
      if previous == None || key != previous.value.0 || Int(row, "id") <= Int(previous.value.1, "id") {
        first := Int(row, "id");
        previous := Some((key, row));
        continue;
      }
      var old_ := previous.value.1;
      previous := Some((key, row));
      if (Int(old_, "id") - first) as real < c.warmup * 1000.0 {
        continue;
      }
      var delta := map k | k in c.counters :: Int(row, k) - Int(old_, k);
      DeltaSigns(rows, i, c, delta);
      if exists k :: k in delta && delta[k] < 0 {
        first := Int(row, "id");
        continue;
      }
      totals := map k | k in c.counters :: totals[k] + delta[k];
      duration := duration + (Int(row, "id") - Int(old_, "id"));
      modes := modes + {mode};
      used := used + [old_, row];
    }
    report := Report(|rows|, duration, modes, totals, used);
  }

  lemma NoneYet(rows: seq<Row>, c: Config)
    ensures (forall k :: Total(rows, 0, c, k) == 0) && Used(rows, 0, c) == [] && ModesOf({}, rows, 0, c)
  {}

  /** A measured pair adds its differences, rows and mode; any other row adds nothing. */
  lemma PairCounts(rows: seq<Row>, i: nat, c: Config, modes: set<Key>)
    requires i < |rows| && ModesOf(modes, rows, i, c)
    ensures i == 0 || !Measured(rows, i, c) ==>
              && (forall k :: Total(rows, i + 1, c, k) == Total(rows, i, c, k))
              && Used(rows, i + 1, c) == Used(rows, i, c) && ModesOf(modes, rows, i + 1, c)
    ensures i > 0 && Measured(rows, i, c) ==>
              && (forall k :: Total(rows, i + 1, c, k) == Total(rows, i, c, k) + Int(rows[i], k) - Int(rows[i - 1], k))
              && Used(rows, i + 1, c) == Used(rows, i, c) + [rows[i - 1], rows[i]]
              && ModesOf(modes + {Mode(rows[i])}, rows, i + 1, c)
  {
    hide Measured, Mode, Int;
  }

  lemma DeltaSigns(rows: seq<Row>, i: nat, c: Config, delta: map<string, int>)
    requires 0 < i < |rows| && delta == map k | k in c.counters :: Int(rows[i], k) - Int(rows[i - 1], k)
    ensures GoesBack(rows, i, c) <==> exists k :: k in delta && delta[k] < 0
  {
    if k :| k in c.counters && Int(rows[i], k) < Int(rows[i - 1], k) {
      assert k in delta && delta[k] < 0;
    }
  }

  /** `summarize` */
  method Summarize(records: seq<Record>, warmup: real) returns (report: Report)
    ensures var rows := Complete(Rows(records, |records|));
            var c := Config(warmup, COUNTERS);
            && report.snapshots == |rows| && report.ms == Total(rows, |rows|, c, "id")
            && report.totals.Keys == COUNTERS
            && (forall k :: k in COUNTERS ==> report.totals[k] == Total(rows, |rows|, c, k))
            && report.used == Used(rows, |rows|, c) && ModesOf(report.modes, rows, |rows|, c)
  {
    var rows := Assemble(records);
    report := Difference(Complete(rows), Config(warmup, COUNTERS));
  }

  // -------------------------------------------------------------- segments

  /** The maximal stretches of measured pairs among the first `n` rows. */
  function Segments(rows: seq<Row>, n: nat, c: Config): seq<Segment>
    requires n <= |rows|
  {
    if n <= 1 then []
    else if Measured(rows, n - 1, c) then Grow(Segments(rows, n - 1, c), n - 1)
    else Segments(rows, n - 1, c)
  }

  /** The segments are in order and apart from each other. */
  lemma {:induction false} SegmentsOrdered(rows: seq<Row>, n: nat, c: Config)
    requires n <= |rows|
    ensures Ordered(Segments(rows, n, c), n)
    decreases n
  {
    if n > 1 {
      SegmentsOrdered(rows, n - 1, c);
      if Measured(rows, n - 1, c) {
        GrowOrdered(Segments(rows, n - 1, c), n - 1);
      }
    }
  }

  /** They cover exactly the measured pairs, so with `SegmentsOrdered` they are the maximal
      stretches. */
  lemma {:induction false} SegmentsCover(rows: seq<Row>, n: nat, c: Config, i: nat)
    requires 0 < i < n <= |rows|
    ensures Measured(rows, i, c) <==> Covered(Segments(rows, n, c), i)
    decreases n
  {
    hide Covered, Ordered, Grow;
    var before := Segments(rows, n - 1, c);
    SegmentsOrdered(rows, n - 1, c);
    if i < n - 1 {
      SegmentsCover(rows, n - 1, c, i);
    } else {
      NoneInside(before, n - 1);
    }
    if Measured(rows, n - 1, c) {
      GrowCovers(before, n - 1, i);
      assert Segments(rows, n, c) == Grow(before, n - 1);
    } else {
      assert Segments(rows, n, c) == before;
    }
  }

  function SegmentSum(rows: seq<Row>, segments: seq<Segment>, name: string): int
    requires Ordered(segments, |rows|)
  {
    if segments == [] then 0
    else
      var n := |segments| - 1;
      SegmentSum(rows, segments[..n], name) + Int(rows[segments[n].hi], name) - Int(rows[segments[n].lo], name)
  }

  lemma GrowSum(rows: seq<Row>, before: seq<Segment>, i: nat, name: string)
    requires 0 < i < |rows| && Ordered(before, i) && Ordered(Grow(before, i), |rows|)
    ensures SegmentSum(rows, Grow(before, i), name)
         == SegmentSum(rows, before, name) + Int(rows[i], name) - Int(rows[i - 1], name)
  {
    var s := Grow(before, i);
    hide Int;
    if before != [] && before[|before| - 1].hi == i - 1 {
      assert s[..|s| - 1] == before[..|before| - 1];
    } else {
      assert s[..|s| - 1] == before;
    }
  }

  /** Every total, and the duration over the ids, is the sum over the maximal measured segments
      of last minus first. */
  lemma {:induction false} TotalIsSegmentSum(rows: seq<Row>, n: nat, c: Config, name: string)
    requires n <= |rows|
    ensures Ordered(Segments(rows, n, c), |rows|)
    ensures Total(rows, n, c, name) == SegmentSum(rows, Segments(rows, n, c), name)
    decreases n
  {
    SegmentsOrdered(rows, n, c);
    OrderedWider(Segments(rows, n, c), n, |rows|);
    hide Int, Measured, Grow, Ordered;
    if n > 1 {
      TotalIsSegmentSum(rows, n - 1, c, name);
      SegmentsOrdered(rows, n - 1, c);
      if Measured(rows, n - 1, c) {
        hide SegmentSum;
        GrowSum(rows, Segments(rows, n - 1, c), n - 1, name);
      }
    }
  }

  // ------------------------------------------------------------- properties

  /** What a measured pair is: one key and increasing ids since the last row that renewed the
      warm-up, at least the warm-up past that row, and no counter going back. */
  lemma MeasuredPair(rows: seq<Row>, i: nat, c: Config) returns (start: nat)
    requires 0 < i < |rows| && Measured(rows, i, c)
    ensures start < i && (Int(rows[i - 1], "id") - Int(rows[start], "id")) as real >= c.warmup * 1000.0
    ensures Restarts(rows, start, c) && forall j :: start < j <= i ==> !Restarts(rows, j, c)
    ensures forall j :: start < j <= i ==>
              KeyOf(rows[j]) == KeyOf(rows[j - 1]) && Int(rows[j], "id") > Int(rows[j - 1], "id")
    ensures forall k :: k in c.counters ==> Int(rows[i], k) >= Int(rows[i - 1], k)
  {
    start := OriginRow(rows, i - 1, c);
    forall j | start < j <= i
      ensures KeyOf(rows[j]) == KeyOf(rows[j - 1]) && Int(rows[j], "id") > Int(rows[j - 1], "id")
    {
      assert !Restarts(rows, j, c);
    }
  }

  lemma {:induction false} OriginRow(rows: seq<Row>, i: nat, c: Config) returns (start: nat)
    requires i < |rows|
    ensures start <= i && Origin(rows, i, c) == Int(rows[start], "id")
    ensures Restarts(rows, start, c) && forall j :: start < j <= i ==> !Restarts(rows, j, c)
  {
    if Restarts(rows, i, c) {
      start := i;
    } else {
      start := OriginRow(rows, i - 1, c);
    }
  }

  /** Reading more rows never lowers a total or the duration. */
  lemma {:induction false} NeverDecreases(rows: seq<Row>, m: nat, n: nat, c: Config, name: string)
    requires m <= n <= |rows| && (name in c.counters || name == "id")
    ensures Total(rows, m, c, name) <= Total(rows, n, c, name)
    decreases n
  {
    if m < n {
      NeverDecreases(rows, m, n - 1, c, name);
    }
  }

  /** Where the key changes, the rows before have no effect on what follows. */
  lemma {:induction false} SuffixIndependent(a: seq<Row>, b: seq<Row>, i: nat, c: Config)
    requires a != [] && i < |b| && KeyOf(a[|a| - 1]) != KeyOf(b[0])
    ensures Origin(a + b, |a| + i, c) == Origin(b, i, c)
    ensures i > 0 ==> Measured(a + b, |a| + i, c) == Measured(b, i, c)
    ensures i == 0 ==> !Measured(a + b, |a|, c)
    decreases i
  {
    var rows := a + b;
    assert rows[|a| + i] == b[i];
    if i == 0 {
      assert rows[|a| - 1] == a[|a| - 1];
    } else {
      assert rows[|a| + i - 1] == b[i - 1];
      SuffixIndependent(a, b, i - 1, c);
    }
  }

  lemma {:induction false} PrefixIndependent(a: seq<Row>, b: seq<Row>, i: nat, c: Config)
    requires i < |a|
    ensures Origin(a + b, i, c) == Origin(a, i, c)
    ensures i > 0 ==> Measured(a + b, i, c) == Measured(a, i, c)
    decreases i
  {
    var rows := a + b;
    assert rows[i] == a[i];
    if i > 0 {
      assert rows[i - 1] == a[i - 1];
      PrefixIndependent(a, b, i - 1, c);
    }
  }

  lemma {:induction false} PrefixTotal(a: seq<Row>, b: seq<Row>, n: nat, c: Config, name: string)
    requires n <= |a|
    ensures Total(a + b, n, c, name) == Total(a, n, c, name)
    decreases n
  {
    if n > 1 {
      PrefixTotal(a, b, n - 1, c, name);
      PrefixIndependent(a, b, n - 1, c);
    }
  }

  lemma {:induction false} SplitTotal(a: seq<Row>, b: seq<Row>, n: nat, c: Config, name: string)
    requires a != [] && n <= |b| && (b != [] ==> KeyOf(a[|a| - 1]) != KeyOf(b[0]))
    ensures Total(a + b, |a| + n, c, name) == Total(a, |a|, c, name) + Total(b, n, c, name)
    decreases n
  {
    if n == 0 {
      PrefixTotal(a, b, |a|, c, name);
    } else {
      SplitTotal(a, b, n - 1, c, name);
      SuffixIndependent(a, b, n - 1, c);
    }
  }

  /** Splitting the rows where the key changes splits every total and the duration. */
  lemma SplitAtKeyChange(a: seq<Row>, b: seq<Row>, c: Config, name: string)
    requires a != [] && b != [] && KeyOf(a[|a| - 1]) != KeyOf(b[0])
    ensures Total(a + b, |a + b|, c, name) == Total(a, |a|, c, name) + Total(b, |b|, c, name)
  {
    SplitTotal(a, b, |b|, c, name);
  }

  // ------------------------------------------------------ which pairs count

  /** One session, epoch, backend, decoder and size. */
  predicate SameStream(a: Row, b: Row) {
    && Field(a, "s") == Field(b, "s") && Field(a, "e") == Field(b, "e") && Field(a, "b") == Field(b, "b")
    && Field(a, "hw") == Field(b, "hw") && Field(a, "w") == Field(b, "w") && Field(a, "h") == Field(b, "h")
  }

  lemma SameKey(a: Row, b: Row)
    ensures KeyOf(a) == KeyOf(b) <==> SameStream(a, b)
  {
    hide Field;
    var x, y := KeyOf(a), KeyOf(b);
    if x == y {
      assert x[0] == y[0] && x[1] == y[1] && x[2] == y[2] && x[3] == y[3] && x[4] == y[4] && x[5] == y[5];
    }
  }

  predicate Continues(rows: seq<Row>, i: nat)
    requires 0 < i < |rows|
  {
    SameStream(rows[i - 1], rows[i]) && Int(rows[i], "id") > Int(rows[i - 1], "id")
  }

  /** A pair is measured exactly when it continues the stream, is past the warm-up counted from the
      last row that renewed it, and no counter goes back. */
  lemma MeasuredIff(rows: seq<Row>, start: nat, i: nat, c: Config)
    requires start < i < |rows| && Restarts(rows, start, c) && forall j :: start < j < i ==> !Restarts(rows, j, c)
    ensures Measured(rows, i, c)
       <==> && Continues(rows, i)
            && (Int(rows[i - 1], "id") - Int(rows[start], "id")) as real >= c.warmup * 1000.0
            && forall k :: k in c.counters ==> Int(rows[i], k) >= Int(rows[i - 1], k)
    ensures Restarts(rows, i, c)
       <==> !Continues(rows, i)
            || ((Int(rows[i - 1], "id") - Int(rows[start], "id")) as real >= c.warmup * 1000.0
                && exists k :: k in c.counters && Int(rows[i], k) < Int(rows[i - 1], k))
  {
    var found := OriginRow(rows, i - 1, c);
    assert found == start;
    SameKey(rows[i - 1], rows[i]);
    hide Origin, KeyOf, SameStream, Int;
  }

  /** Completeness keeps order and looks at each row alone. */
  lemma {:induction false} CompleteConcat(a: seq<Row>, b: seq<Row>)
    ensures Complete(a + b) == Complete(a) + Complete(b)
    ensures |b| == 1 ==> Complete(b) == if forall k :: k in REQUIRED ==> k in b[0] then b else []
    decreases |b|
  {
    if b == [] {
      assert a + b == a;
    } else {
      var n := |b| - 1;
      assert (a + b)[..|a| + n] == a + b[..n];
      CompleteConcat(a, b[..n]);
      assert n == 0 ==> b == [b[0]] && b[..n] == [];
    }
  }

  function MeasuredCount(rows: seq<Row>, n: nat, c: Config): nat
    requires n <= |rows|
  {
    if n <= 1 then 0 else MeasuredCount(rows, n - 1, c) + if Measured(rows, n - 1, c) then 1 else 0
  }

  /** The rows used are the two of each measured pair, pair after pair. */
  lemma {:induction false} UsedArePairs(rows: seq<Row>, n: nat, c: Config, i: nat)
    requires n <= |rows|
    ensures |Used(rows, n, c)| == 2 * MeasuredCount(rows, n, c)
    ensures 0 < i < n && Measured(rows, i, c) ==>
              var p := 2 * MeasuredCount(rows, i, c);
              p + 1 < |Used(rows, n, c)| && Used(rows, n, c)[p] == rows[i - 1] && Used(rows, n, c)[p + 1] == rows[i]
    decreases n
  {
    hide Measured;
    if n > 1 {
      UsedArePairs(rows, n - 1, c, i);
      if i == n - 1 {
        UsedArePairs(rows, n - 1, c, n);
      }
    }
  }
}
