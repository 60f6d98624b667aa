/** The first half of `summarize` in the performance analyzer: the five kinds of log lines of a
    snapshot are assembled under their id, with at most sixteen snapshots pending. Lines are
    taken as already parsed. */
module GroupAssembly {
  import opened Bytes

  datatype Value = Number(n: int) | Text(s: string)
  type Row = map<string, Value>

  type Kind = k: nat | 1 <= k <= 5 witness 1

  datatype Record = Record(kind: Kind, id: int, fields: Row)

  /** A pending snapshot. `born` and `serial` are bookkeeping of this model: the index of the
      record that opened the group and the number of openings before it. */
  datatype Group = Group(born: nat, serial: nat, parts: seq<Record>)

  const CAPACITY: nat := 16

  /** The pending dictionary, its keys in insertion order, and the number of openings so far. */
  datatype State = State(order: seq<int>, groups: map<int, Group>, openings: nat)

  // ------------------------------------------------------------- one record

  /** `parts[kind] = fields`: a repeated kind keeps its place. */
  function Put(parts: seq<Record>, r: Record): (after: seq<Record>)
    ensures |parts| <= |after| <= |parts| + 1 && after != []
  {
    if parts == [] then [r]
    else if parts[0].kind == r.kind then [r] + parts[1..]
    else [parts[0]] + Put(parts[1..], r)
  }

  /** The later parts override the earlier ones, field by field. */
  function Merge(parts: seq<Record>): Row {
    if parts == [] then map[] else Merge(parts[..|parts| - 1]) + parts[|parts| - 1].fields
  }

  function Remove(order: seq<int>, id: int): seq<int> {
    if order == [] then []
    else if order[0] == id then order[1..]
    else [order[0]] + Remove(order[1..], id)
  }

  predicate Full(s: State) {
    |s.order| >= CAPACITY
  }

  /** `pending.pop(next(iter(pending)))` when there is no room */
  function Evict(s: State): State {
    if Full(s) then s.(order := s.order[1..], groups := s.groups - {s.order[0]}) else s
  }

  /** Makes sure the id has a group. */
  function Open(s: State, id: int, index: nat): State {
    if id in s.groups then s
    else
      var t := Evict(s);
      State(t.order + [id], t.groups[id := Group(index, s.openings, [])], s.openings + 1)
  }

  /** Adds the record to its group, which leaves if that makes it complete. */
  function Insert(s: State, r: Record): (State, Option<seq<Record>>)
    requires r.id in s.groups
  {
    var g := s.groups[r.id];
    var parts := Put(g.parts, r);
    if |parts| == 5 then (s.(order := Remove(s.order, r.id), groups := s.groups - {r.id}), Some(parts))
    else (s.(groups := s.groups[r.id := g.(parts := parts)]), None)
  }

  /** One record: the new state, and the five parts of the snapshot it completes, if any. */
  function Step(s: State, r: Record, index: nat): (State, Option<seq<Record>>) {
    Insert(Open(s, r.id, index), r)
  }

  function StateAfter(records: seq<Record>, n: nat): State
    requires n <= |records|
  {
    if n == 0 then State([], map[], 0) else Step(StateAfter(records, n - 1), records[n - 1], n - 1).0
  }

  /** The five parts of the snapshot record `i` completes. */
  function Completed(records: seq<Record>, i: nat): Option<seq<Record>>
    requires i < |records|
  {
    Step(StateAfter(records, i), records[i], i).1
  }

  function Rows(records: seq<Record>, n: nat): seq<Row>
    requires n <= |records|
  {
    if n == 0 then []
    else
      match Completed(records, n - 1)
      case None => Rows(records, n - 1)
      case Some(parts) => Rows(records, n - 1) + [Merge(parts)]
  }

  // ---------------------------------------------------------------- the loop

  method Assemble(records: seq<Record>) returns (rows: seq<Row>)
    ensures rows == Rows(records, |records|)
  {
    var order: seq<int>, pending: map<int, Group>, openings := [], map[], 0;
    rows := [];
    for n := 0 to |records|
      invariant State(order, pending, openings) == StateAfter(records, n)
      invariant rows == Rows(records, n)
    {
      var r := records[n];
      if r.id !in pending {
        if |order| >= CAPACITY {
          pending := pending - {order[0]};
          order := order[1..];
        }
        order := order + [r.id];
        pending := pending[r.id := Group(n, openings, [])];
        openings := openings + 1;
      }
      var parts := Put(pending[r.id].parts, r);
      if |parts| == 5 {
        rows := rows + [Merge(parts)];
        order := Remove(order, r.id);
        pending := pending - {r.id};
      } else {
        pending := pending[r.id := pending[r.id].(parts := parts)];
      }
    }
  }

  // ------------------------------------------------------- what a group holds

  /** The records of one id among `records[m..n]`, put together. */
  function Gather(records: seq<Record>, id: int, m: nat, n: nat): seq<Record>
    requires m <= n <= |records|
    decreases n
  {
    if m == n then []
    else
      var before := Gather(records, id, m, n - 1);
      if records[n - 1].id == id then Put(before, records[n - 1]) else before
  }

  predicate DistinctKinds(parts: seq<Record>) {
    forall i, j :: 0 <= i < j < |parts| ==> parts[i].kind != parts[j].kind
  }

  lemma {:induction false} PutKinds(parts: seq<Record>, r: Record)
    requires DistinctKinds(parts)
    ensures DistinctKinds(Put(parts, r)) && r in Put(parts, r)
    ensures forall p :: p in Put(parts, r) <==> p == r || (p in parts && p.kind != r.kind)
  {
    if parts != [] {
      assert parts == [parts[0]] + parts[1..];
      if parts[0].kind == r.kind {
        assert forall p :: p in parts[1..] ==> p.kind != r.kind by {
          forall p | p in parts[1..]
            ensures p.kind != r.kind
          {
            var j :| 0 <= j < |parts[1..]| && parts[1..][j] == p;
            assert parts[j + 1] == p;
          }
        }
      } else {
        PutKinds(parts[1..], r);
        var rest := Put(parts[1..], r);
        forall j | 0 <= j < |rest|
          ensures rest[j].kind != parts[0].kind
        {
          if rest[j] != r {
            var i :| 0 <= i < |parts[1..]| && parts[1..][i] == rest[j];
            assert parts[i + 1] == rest[j];
          }
        }
      }
    }
  }

  /** `p` is the last record of its id and kind in `records[m..n]`. */
  ghost predicate Survives(records: seq<Record>, id: int, m: nat, n: nat, p: Record)
    requires m <= n <= |records|
  {
    exists i :: m <= i < n && records[i] == p && p.id == id
                && forall j :: i < j < n && records[j].id == id ==> records[j].kind != p.kind
  }

  /** A group's parts are, kind by kind, the last records of its id since it was opened. */
  lemma {:induction false} GatherKeepsSurvivors(records: seq<Record>, id: int, m: nat, n: nat)
    requires m <= n <= |records|
    ensures DistinctKinds(Gather(records, id, m, n))
    ensures forall p :: p in Gather(records, id, m, n) ==> Survives(records, id, m, n, p)
    decreases n
  {
    if m < n {
      GatherKeepsSurvivors(records, id, m, n - 1);
      if records[n - 1].id == id {
        PutKinds(Gather(records, id, m, n - 1), records[n - 1]);
      }
      forall p | p in Gather(records, id, m, n)
        ensures Survives(records, id, m, n, p)
      {
        if records[n - 1].id == id && p == records[n - 1] {
          NewestSurvives(records, id, m, n);
        } else {
          StillSurvives(records, id, m, n, p);
        }
      }
    }
  }

  lemma NewestSurvives(records: seq<Record>, id: int, m: nat, n: nat)
    requires m < n <= |records| && records[n - 1].id == id
    ensures Survives(records, id, m, n, records[n - 1])
  {
    assert records[n - 1].id == id;
  }

  lemma StillSurvives(records: seq<Record>, id: int, m: nat, n: nat, p: Record)
    requires m < n <= |records| && Survives(records, id, m, n - 1, p)
    requires records[n - 1].id == id ==> records[n - 1].kind != p.kind
    ensures Survives(records, id, m, n, p)
  {
    var i :| m <= i < n - 1 && records[i] == p && p.id == id
             && forall j :: i < j < n - 1 && records[j].id == id ==> records[j].kind != p.kind;
    assert records[i] == p;
  }

  /** Every kind that arrived is among the parts. */
  lemma {:induction false} GatherHasKind(records: seq<Record>, id: int, m: nat, n: nat, i: nat) returns (at: nat)
    requires m <= i < n <= |records| && records[i].id == id
    ensures at < |Gather(records, id, m, n)| && Gather(records, id, m, n)[at].kind == records[i].kind
    decreases n
  {
    var before, r := Gather(records, id, m, n - 1), records[n - 1];
    if i == n - 1 {
      at := PutPlace(before, r);
    } else {
      at := GatherHasKind(records, id, m, n - 1, i);
      if r.id == id {
        PutKeepsPlace(before, r, at);
      }
    }
  }

  lemma {:induction false} PutPlace(parts: seq<Record>, r: Record) returns (at: nat)
    ensures at < |Put(parts, r)| && Put(parts, r)[at] == r
  {
    if parts == [] || parts[0].kind == r.kind {
      at := 0;
    } else {
      at := PutPlace(parts[1..], r);
      at := at + 1;
    }
  }

  lemma {:induction false} PutKeepsPlace(parts: seq<Record>, r: Record, at: nat)
    requires at < |parts|
    ensures Put(parts, r)[at].kind == parts[at].kind
  {
    if parts[0].kind != r.kind && at > 0 {
      PutKeepsPlace(parts[1..], r, at - 1);
    }
  }

  // ------------------------------------------------------------------- order

  /** At most sixteen groups, listed once each in the order they were opened. */
  ghost predicate Tidy(s: State) {
    && |s.order| <= CAPACITY
    && (forall id :: id in s.order <==> id in s.groups)
    && Sorted(s.order, s.groups)
    && (forall id :: id in s.groups ==> s.groups[id].serial < s.openings)
  }

  function Serial(groups: map<int, Group>, id: int): nat {
    if id in groups then groups[id].serial else 0
  }

  ghost predicate Sorted(order: seq<int>, groups: map<int, Group>) {
    forall i, j :: 0 <= i < j < |order| ==> Serial(groups, order[i]) < Serial(groups, order[j])
  }

  lemma EvictKeepsTidy(s: State)
    requires Tidy(s)
    ensures Tidy(Evict(s)) && !Full(Evict(s))
  {
    if Full(s) {
      var t := Evict(s);
      assert forall i :: 0 <= i < |t.order| ==> t.order[i] == s.order[i + 1];
      assert s.order == [s.order[0]] + t.order;
    }
  }

  lemma OpenKeepsTidy(s: State, id: int, index: nat)
    requires Tidy(s)
    ensures Tidy(Open(s, id, index)) && id in Open(s, id, index).groups
  {
    if id !in s.groups {
      EvictKeepsTidy(s);
      var t, u := Evict(s), Open(s, id, index);
      assert forall i :: 0 <= i < |t.order| ==> t.order[i] in t.order && u.order[i] == t.order[i];
      assert Sorted(u.order, u.groups);
    }
  }

  lemma {:induction false} RemoveOrdered(order: seq<int>, id: int, groups: map<int, Group>)
    requires Sorted(order, groups)
    ensures var rest := Remove(order, id);
            && |rest| <= |order| && Sorted(rest, groups)
            && (forall other :: other in rest <==> other in order && other != id)
  {
    if order != [] {
      var tail := order[1..];
      SortedTail(order, groups);
      RemoveOrdered(tail, id, groups);
      FirstIsSmallest(order, groups);
      var rest := Remove(tail, id);
      if order[0] != id {
        SortedCons(order[0], rest, groups);
      }
    }
  }

  lemma SortedTail(order: seq<int>, groups: map<int, Group>)
    requires order != [] && Sorted(order, groups)
    ensures Sorted(order[1..], groups) && forall other :: other in order <==> other == order[0] || other in order[1..]
  {
    assert order == [order[0]] + order[1..];
    assert forall i :: 0 <= i < |order[1..]| ==> order[1..][i] == order[i + 1];
  }

  lemma SortedCons(first: int, rest: seq<int>, groups: map<int, Group>)
    requires Sorted(rest, groups) && forall other :: other in rest ==> Serial(groups, first) < Serial(groups, other)
    ensures Sorted([first] + rest, groups)
  {
    assert forall i :: 0 <= i < |rest| ==> rest[i] in rest;
  }

  lemma FirstIsSmallest(order: seq<int>, groups: map<int, Group>)
    requires order != [] && Sorted(order, groups)
    ensures forall other :: other in order[1..] ==>
              other != order[0] && Serial(groups, order[0]) < Serial(groups, other)
  {
    forall other | other in order[1..]
      ensures Serial(groups, order[0]) < Serial(groups, other)
    {
      var i :| 0 <= i < |order[1..]| && order[1..][i] == other;
      assert order[i + 1] == other;
    }
  }

  lemma InsertKeepsTidy(s: State, r: Record)
    requires Tidy(s) && r.id in s.groups
    ensures Tidy(Insert(s, r).0)
  {
    RemoveOrdered(s.order, r.id, s.groups);
    var t := Insert(s, r).0;
    assert forall i :: 0 <= i < |t.order| ==> t.order[i] in t.order;
    assert forall other :: other in t.order ==> Serial(t.groups, other) == Serial(s.groups, other);
  }

  lemma {:induction false} AlwaysTidy(records: seq<Record>, n: nat)
    requires n <= |records|
    ensures Tidy(StateAfter(records, n))
  {
    hide Tidy, Insert;
    if n == 0 {
      EmptyTidy();
    } else {
      AlwaysTidy(records, n - 1);
      var s, r := StateAfter(records, n - 1), records[n - 1];
      OpenKeepsTidy(s, r.id, n - 1);
      hide Open;
      InsertKeepsTidy(Open(s, r.id, n - 1), r);
    }
  }

  lemma EmptyTidy()
    ensures Tidy(State([], map[], 0))
  {}

  // ----------------------------------------------------------------- contents

  /** The group holds what arrived for its id since it was opened, and is incomplete. */
  ghost predicate Holds(records: seq<Record>, n: nat, id: int, g: Group)
    requires n <= |records|
  {
    && g.born < n && records[g.born].id == id
    && g.parts == Gather(records, id, g.born, n) && |g.parts| < 5
  }

  lemma {:induction false} AlwaysHolds(records: seq<Record>, n: nat, id: int)
    requires n <= |records| && id in StateAfter(records, n).groups
    ensures Holds(records, n, id, StateAfter(records, n).groups[id])
    decreases n
  {
    hide Remove, Full;
    var s, r := StateAfter(records, n - 1), records[n - 1];
    assert Put([], r) == [r];
    hide Put;
    if id in s.groups {
      AlwaysHolds(records, n - 1, id);
    }
    if id == r.id {
      Inserted(records, n - 1);
    }
  }

  /** The group record `n` goes into, with the record added. */
  lemma Inserted(records: seq<Record>, n: nat)
    requires n < |records|
    requires records[n].id in StateAfter(records, n).groups ==>
               Holds(records, n, records[n].id, StateAfter(records, n).groups[records[n].id])
    ensures var r := records[n];
            var g := Open(StateAfter(records, n), r.id, n).groups[r.id];
            && g.born <= n && records[g.born].id == r.id
            && Put(g.parts, r) == Gather(records, r.id, g.born, n + 1) && |Put(g.parts, r)| <= 5
  {
    assert Gather(records, records[n].id, n, n) == [];
  }

  // --------------------------------------------------------- emitted snapshots

  /** What is emitted: one record of each of the five kinds, all of one id, each the last of its
      kind since a record of that id opened the group. */
  lemma EmittedSnapshot(records: seq<Record>, n: nat) returns (born: nat)
    requires n < |records| && Completed(records, n).Some?
    ensures born <= n && records[born].id == records[n].id
    ensures var parts := Completed(records, n).value;
            && parts == Gather(records, records[n].id, born, n + 1)
            && |parts| == 5 && DistinctKinds(parts)
            && (forall p :: p in parts ==> Survives(records, records[n].id, born, n + 1, p))
            && (forall kind: Kind :: Among(parts, kind))
  {
    var s, r := StateAfter(records, n), records[n];
    if r.id in s.groups {
      AlwaysHolds(records, n, r.id);
    }
    Inserted(records, n);
    born := Open(s, r.id, n).groups[r.id].born;
    GatherKeepsSurvivors(records, r.id, born, n + 1);
    var parts := Completed(records, n).value;
    hide Completed, Gather, Survives, StateAfter;
    forall kind: Kind
      ensures Among(parts, kind)
    {
      var i := EveryKind(parts, kind);
    }
  }

  predicate Among(parts: seq<Record>, kind: Kind) {
    exists i :: 0 <= i < |parts| && parts[i].kind == kind
  }

  /** Five records of distinct kinds have every kind among them. */
  lemma EveryKind(parts: seq<Record>, kind: Kind) returns (i: nat)
    requires |parts| == 5 && DistinctKinds(parts)
    ensures i < 5 && parts[i].kind == kind
  {
    var a, b, c, d, e := parts[0].kind, parts[1].kind, parts[2].kind, parts[3].kind, parts[4].kind;
    assert a != b && a != c && a != d && a != e && b != c && b != d && b != e && c != d && c != e && d != e;
    i := if kind == a then 0 else if kind == b then 1 else if kind == c then 2 else if kind == d then 3 else 4;
  }

  // ---------------------------------------------------------------- eviction

  lemma {:induction false} SerialsSpread(s: State, j: nat)
    requires Tidy(s) && j < |s.order|
    ensures Serial(s.groups, s.order[j]) >= Serial(s.groups, s.order[0]) + j
  {
    if j > 0 {
      SerialsSpread(s, j - 1);
    }
  }

  /** A pending group stays, unless this record completes it or is at least the sixteenth to
      open a group after it. */
  lemma EvictedLate(records: seq<Record>, n: nat, id: int)
    requires n < |records| && id in StateAfter(records, n).groups
    ensures var g := StateAfter(records, n).groups[id];
            var after := StateAfter(records, n + 1);
            || (Completed(records, n).Some? && records[n].id == id)
            || (id in after.groups && after.groups[id].born == g.born && after.groups[id].serial == g.serial)
            || after.openings - (g.serial + 1) >= 16
  {
    var s, r := StateAfter(records, n), records[n];
    AlwaysTidy(records, n);
    if r.id !in s.groups && Full(s) && id == s.order[0] {
      SerialsSpread(s, CAPACITY - 1);
      assert s.order[CAPACITY - 1] in s.order;
    }
  }

  lemma {:induction false} OpeningsGrow(records: seq<Record>, m: nat, n: nat)
    requires m <= n <= |records|
    ensures StateAfter(records, m).openings <= StateAfter(records, n).openings
    decreases n
  {
    if m < n {
      OpeningsGrow(records, m, n - 1);
    }
  }

  /** The group opened by record `m` is among the pending ones after `n` records. */
  predicate StillPending(records: seq<Record>, m: nat, n: nat)
    requires m < n <= |records|
  {
    var s := StateAfter(records, n);
    var id := records[m].id;
    id in s.groups && s.groups[id].born == m && s.groups[id].serial == StateAfter(records, m).openings
  }

  lemma FirstPending(records: seq<Record>, m: nat)
    requires m < |records| && records[m].id !in StateAfter(records, m).groups
    ensures StillPending(records, m, m + 1)
  {
    Inserted(records, m);
  }

  /** One more record: the group stays or is completed by it. */
  lemma PendingStep(records: seq<Record>, m: nat, n: nat)
    requires m < n < |records| && StillPending(records, m, n)
    requires StateAfter(records, n + 1).openings - (StateAfter(records, m).openings + 1) < 16
    ensures StillPending(records, m, n + 1)
         || (records[n].id == records[m].id && Completed(records, n) == Some(Gather(records, records[m].id, m, n + 1)))
  {
    EvictedLate(records, n, records[m].id);
    if records[n].id == records[m].id {
      AlwaysHolds(records, n, records[m].id);
      Inserted(records, n);
    }
  }

  /** The group opened by record `m` is still pending at `n`, unless record `done` completed it. */
  lemma {:induction false} PendingOrDone(records: seq<Record>, m: nat, n: nat) returns (done: Option<nat>)
    requires m < n <= |records| && records[m].id !in StateAfter(records, m).groups
    requires StateAfter(records, n).openings - (StateAfter(records, m).openings + 1) < 16
    ensures done.None? ==> StillPending(records, m, n)
    ensures done.Some? ==>
              var i := done.value;
              m <= i < n && Completed(records, i) == Some(Gather(records, records[m].id, m, i + 1))
    decreases n
  {
    hide StateAfter, Completed, Gather, StillPending;
    if n == m + 1 {
      FirstPending(records, m);
      done := None;
    } else {
      OpeningsGrow(records, n - 1, n);
      done := PendingOrDone(records, m, n - 1);
      if done.None? {
        PendingStep(records, m, n - 1);
        done := if StillPending(records, m, n) then None else Some(n - 1);
      }
    }
  }

  /** A snapshot all of whose five lines arrive before the sixteenth later opening is emitted:
      its first complete gathering becomes a row. */
  lemma CompleteSnapshotEmitted(records: seq<Record>, m: nat, n: nat) returns (i: nat)
    requires m < n <= |records| && records[m].id !in StateAfter(records, m).groups
    requires StateAfter(records, n).openings - (StateAfter(records, m).openings + 1) < 16
    requires forall k: Kind :: HasKind(records, records[m].id, m, n, k)
    ensures m <= i < n && Completed(records, i) == Some(Gather(records, records[m].id, m, i + 1))
    ensures Merge(Gather(records, records[m].id, m, i + 1)) in Rows(records, |records|)
  {
    var id := records[m].id;
    var done := PendingOrDone(records, m, n);
    if done.None? {
      AlwaysHolds(records, n, id);
      FiveGathered(records, id, m, n);
      assert false;
    }
    i := done.value;
    EmittedInRows(records, i, |records|);
  }

  predicate HasKind(records: seq<Record>, id: int, m: nat, n: nat, kind: Kind) {
    exists i :: m <= i < n && i < |records| && records[i].id == id && records[i].kind == kind
  }

  lemma FiveGathered(records: seq<Record>, id: int, m: nat, n: nat)
    requires m <= n <= |records| && forall k: Kind :: HasKind(records, id, m, n, k)
    ensures |Gather(records, id, m, n)| >= 5
  {
    var a := KindPlace(records, id, m, n, 1);
    var b := KindPlace(records, id, m, n, 2);
    var c := KindPlace(records, id, m, n, 3);
    var d := KindPlace(records, id, m, n, 4);
    var e := KindPlace(records, id, m, n, 5);
  }

  lemma KindPlace(records: seq<Record>, id: int, m: nat, n: nat, kind: Kind) returns (at: nat)
    requires m <= n <= |records| && HasKind(records, id, m, n, kind)
    ensures at < |Gather(records, id, m, n)| && Gather(records, id, m, n)[at].kind == kind
  {
    var i :| m <= i < n && i < |records| && records[i].id == id && records[i].kind == kind;
    at := GatherHasKind(records, id, m, n, i);
  }

  lemma {:induction false} EmittedInRows(records: seq<Record>, i: nat, n: nat)
    requires i < n <= |records| && Completed(records, i).Some?
    ensures Merge(Completed(records, i).value) in Rows(records, n)
    decreases n
  {
    if i < n - 1 {
      EmittedInRows(records, i, n - 1);
    }
  }

  // ------------------------------------------------------------ merged rows

  /** A merged row has the fields of its parts. */
  lemma {:induction false} MergeHas(parts: seq<Record>, k: string)
    ensures k in Merge(parts) <==> exists j :: 0 <= j < |parts| && k in parts[j].fields
    decreases |parts|
  {
    if parts != [] {
      var n := |parts| - 1;
      MergeHas(parts[..n], k);
      if j :| 0 <= j < n && k in parts[j].fields {
        assert parts[..n][j] == parts[j];
      }
    }
  }

  /** And takes each from the last part that has it. */
  lemma {:induction false} MergeTakesLast(parts: seq<Record>, j: nat, k: string)
    requires j < |parts| && k in parts[j].fields && forall i :: j < i < |parts| ==> k !in parts[i].fields
    ensures k in Merge(parts) && Merge(parts)[k] == parts[j].fields[k]
    decreases |parts|
  {
    var n := |parts| - 1;
    if j < n {
      MergeTakesLast(parts[..n], j, k);
    }
  }

  /** A record of this kind for this id among records `m` to `i`. */
  predicate Arrived(records: seq<Record>, id: int, m: nat, i: nat, kind: Kind) {
    exists j :: m <= j < i && j < |records| && records[j].id == id && records[j].kind == kind
  }

  lemma {:induction false} GatheredArrived(records: seq<Record>, id: int, m: nat, n: nat, a: nat)
    requires m <= n <= |records| && a < |Gather(records, id, m, n)|
    ensures Arrived(records, id, m, n, Gather(records, id, m, n)[a].kind)
    decreases n
  {
    GatherKeepsSurvivors(records, id, m, n);
    var p := Gather(records, id, m, n)[a];
    assert Survives(records, id, m, n, p);
  }

  /** Parts stand in the order in which their kinds first arrived. */
  lemma {:induction false} GatherOrder(records: seq<Record>, id: int, m: nat, n: nat, a: nat, b: nat)
    requires m <= n <= |records| && a < b < |Gather(records, id, m, n)|
    ensures var parts := Gather(records, id, m, n);
            exists i ::
              m < i <= n && Arrived(records, id, m, i, parts[a].kind) && !Arrived(records, id, m, i, parts[b].kind)
    decreases n
  {
    var before := Gather(records, id, m, n - 1);
    var r := records[n - 1];
    var parts := Gather(records, id, m, n);
    if r.id != id {
      GatherOrder(records, id, m, n - 1, a, b);
    } else {
      PutPlaces(before, r);
      if b < |before| {
        GatherOrder(records, id, m, n - 1, a, b);
      } else {
        GatheredArrived(records, id, m, n - 1, a);
        NotYetGathered(records, id, m, n - 1, r.kind);
      }
    }
  }

  /** Putting a record in keeps the kinds in their places; a new kind comes last. */
  lemma {:induction false} PutPlaces(parts: seq<Record>, r: Record)
    ensures forall a :: 0 <= a < |parts| ==> Put(parts, r)[a].kind == parts[a].kind
    ensures |Put(parts, r)| > |parts| ==>
              Put(parts, r)[|parts|].kind == r.kind && forall a :: 0 <= a < |parts| ==> parts[a].kind != r.kind
  {
    if parts != [] && parts[0].kind != r.kind {
      PutPlaces(parts[1..], r);
      forall a | 0 <= a < |parts|
        ensures Put(parts, r)[a].kind == parts[a].kind
      {
        if a > 0 {
          assert Put(parts, r)[a] == Put(parts[1..], r)[a - 1];
        }
      }
    }
  }

  lemma NotYetGathered(records: seq<Record>, id: int, m: nat, n: nat, kind: Kind)
    requires m <= n <= |records|
    requires forall a :: 0 <= a < |Gather(records, id, m, n)| ==> Gather(records, id, m, n)[a].kind != kind
    ensures !Arrived(records, id, m, n, kind)
  {
    if i :| m <= i < n && i < |records| && records[i].id == id && records[i].kind == kind {
      var at := GatherHasKind(records, id, m, n, i);
    }
  }

  /** In particular at most sixteen snapshots are pending. */
  lemma AtMostSixteen(records: seq<Record>, n: nat)
    requires n <= |records|
    ensures |StateAfter(records, n).order| <= 16
    ensures forall id :: id in StateAfter(records, n).groups <==> id in StateAfter(records, n).order
  {
    hide StateAfter;
    AlwaysTidy(records, n);
  }
}
