/**
 Per-model statistics of the in-memory store (AdminModelStats in
 internal/jobstore/model_stats.go): one pass over the jobs groups the finished ones by key,
 then each group becomes a row. The groups are visited in no particular order.
 */
module ModelStats {
  import opened GoStrings
  import opened Jobs
  import opened JobStore
  import opened MapSums
  import opened Percentile
  import opened StatRows

  // Finished jobs from since, included, to until, excluded.
  datatype Window = Window(since: int, until: int) {
    predicate Contains(j: Job) {
      j.IsTerminal() && j.finishedAt != ZERO_TIME && since <= j.finishedAt < until
    }
  }

  datatype Agg = Agg(succ: nat, fail: nat, lat: seq<real>, failCodes: map<string, int>)

  const NO_JOBS := Agg(0, 0, [], map[])

  function FailureCode(j: Job): string {
    if TrimSpace(j.errorCode) == "" then "(empty)" else TrimSpace(j.errorCode)
  }

  // Whole microseconds of a duration in nanoseconds; Go's division truncates.
  function Microseconds(d: int): int {
    if d >= 0 then d / 1000 else -(-d / 1000)
  }

  // The job's latency sample, if it has one.
  function Latency(j: Job): seq<real> {
    if j.startedAt == ZERO_TIME || j.finishedAt == ZERO_TIME || Microseconds(j.finishedAt - j.startedAt) < 0 then []
    else [Microseconds(j.finishedAt - j.startedAt) as real / 1000.0]
  }

  function CodeCount(codes: map<string, int>, code: string): int {
    if code in codes then codes[code] else 0
  }

  function Counted(a: Agg, j: Job): Agg {
    var code := FailureCode(j);
    Agg(if j.status == Succeeded then a.succ + 1 else a.succ,
        if j.status == Failed then a.fail + 1 else a.fail,
        a.lat + Latency(j),
        if j.status == Failed then a.failCodes[code := CodeCount(a.failCodes, code) + 1] else a.failCodes)
  }

  // What the first n jobs contribute to a key.
  function AggOf(jobs: seq<Job>, n: nat, key: string, w: Window): Agg
    requires n <= |jobs|
  {
    if n == 0 then NO_JOBS
    else
      var a := AggOf(jobs, n - 1, key, w);
      if w.Contains(jobs[n - 1]) && KeyOf(jobs[n - 1]) == key then Counted(a, jobs[n - 1]) else a
  }

  // The keys of the first n jobs.
  function KeysIn(jobs: seq<Job>, n: nat, w: Window): (keys: set<string>)
    requires n <= |jobs|
    ensures forall k :: k in keys ==> NUL in k
  {
    if n == 0 then {}
    else KeysIn(jobs, n - 1, w) + if w.Contains(jobs[n - 1]) then {KeyOf(jobs[n - 1])} else {}
  }

  ghost predicate Groups(groups: map<string, Agg>, jobs: seq<Job>, n: nat, w: Window)
    requires n <= |jobs|
  {
    && groups.Keys == KeysIn(jobs, n, w)
    && forall k :: k in groups ==> groups[k] == AggOf(jobs, n, k, w)
  }

  lemma {:induction false} NoJobsOfKey(jobs: seq<Job>, n: nat, key: string, w: Window)
    requires n <= |jobs|
    ensures key !in KeysIn(jobs, n, w) ==> AggOf(jobs, n, key, w) == NO_JOBS
  {
    hide KeyOf, Window.Contains;
    if n > 0 {
      NoJobsOfKey(jobs, n - 1, key, w);
    }
  }

  lemma GroupsSkip(groups: map<string, Agg>, jobs: seq<Job>, n: nat, w: Window)
    requires n < |jobs| && Groups(groups, jobs, n, w) && !w.Contains(jobs[n])
    ensures Groups(groups, jobs, n + 1, w)
  {
    hide KeyOf, Window.Contains;
  }

  lemma GroupsAdd(groups: map<string, Agg>, jobs: seq<Job>, n: nat, w: Window)
    requires n < |jobs| && Groups(groups, jobs, n, w) && w.Contains(jobs[n])
    ensures var k := KeyOf(jobs[n]);
            Groups(groups[k := Counted(if k in groups then groups[k] else NO_JOBS, jobs[n])], jobs, n + 1, w)
  {
    hide KeyOf, Window.Contains, Counted;
    NoJobsOfKey(jobs, n, KeyOf(jobs[n]), w);
  }

  method Group(m: Memory, w: Window) returns (groups: map<string, Agg>)
    requires m.Valid()
    ensures Groups(groups, m.jobs, |m.jobs|, w)
  {
    hide KeyOf, Groups, DistinctIds, Indexes;
    groups := map[];
    NoGroups(m.jobs, w);
    for i := 0 to m.count
      invariant Groups(groups, m.jobs, i, w)
    {
      var j := m.buf[i].job;
      if j.status != Succeeded && j.status != Failed {
        GroupsSkip(groups, m.jobs, i, w);
        continue;
      }
      if j.finishedAt == ZERO_TIME || j.finishedAt < w.since || !(j.finishedAt < w.until) {
        GroupsSkip(groups, m.jobs, i, w);
        continue;
      }
      var k := KeyOf(j);
      var a := if k in groups then groups[k] else NO_JOBS;
      GroupsAdd(groups, m.jobs, i, w);
      a := Count(a, j);
      groups := groups[k := a];
    }
  }

  lemma NoGroups(jobs: seq<Job>, w: Window)
    ensures Groups(map[], jobs, 0, w)
  {
  }

  // Counts one job into its group.
  method Count(before: Agg, j: Job) returns (a: Agg)
    requires j.IsTerminal() && j.finishedAt != ZERO_TIME
    ensures a == Counted(before, j)
  {
    hide TrimSpace;
    a := before;
    if j.status == Succeeded {
      a := a.(succ := a.succ + 1);
    } else if j.status == Failed {
      a := a.(fail := a.fail + 1);
      var ec := TrimSpace(j.errorCode);
      if ec == "" {
        ec := "(empty)";
      }
      a := a.(failCodes := a.failCodes[ec := CodeCount(a.failCodes, ec) + 1]);
    }
    if j.startedAt != ZERO_TIME {
      var us := Microseconds(j.finishedAt - j.startedAt);
      if us >= 0 {
        a := a.(lat := a.lat + [us as real / 1000.0]);
      }
    }
  }

  // The row of a group.
  ghost function RowOf(key: string, a: Agg): Row
    requires NUL in key
  {
    Finish(Row(Shown(key).0, Shown(key).1, a.succ, a.fail, 0, 0.0, Average(a.lat), P95(a.lat), a.failCodes, false))
  }

  method MakeRow(k: string, a: Agg) returns (row: Row)
    requires NUL in k
    ensures row == RowOf(k, a)
  {
    hide P95, Average;
    IndexIsFirst(k, NUL);
    var cut := Index(k, NUL);
    var lat := new real[|a.lat|](i requires 0 <= i < |a.lat| => a.lat[i]);
    assert lat[..] == a.lat;
    var avg := AvgFloat(lat);
    var p95 := Percentile95MS(lat);
    row := Finish(Row(k[..cut], k[cut + 1..], a.succ, a.fail, 0, 0.0, avg, p95, a.failCodes, false));
  }

  // order lists keys, each once.
  ghost predicate Lists(order: seq<string>, keys: set<string>) {
    && (forall k :: k in order <==> k in keys)
    && forall i, j :: 0 <= i < j < |order| ==> order[i] != order[j]
  }

  ghost function RowsIn(order: seq<string>, jobs: seq<Job>, w: Window): (rows: seq<Row>)
    requires forall k :: k in order ==> NUL in k
    ensures |rows| == |order|
    ensures forall i :: 0 <= i < |rows| ==> rows[i] == RowOf(order[i], AggOf(jobs, |jobs|, order[i], w))
  {
    seq(|order|, i requires 0 <= i < |order| => RowOf(order[i], AggOf(jobs, |jobs|, order[i], w)))
  }

  ghost predicate Arranged(rows: seq<Row>, jobs: seq<Job>, w: Window, order: seq<string>) {
    Lists(order, KeysIn(jobs, |jobs|, w)) && multiset(rows) == multiset(RowsIn(order, jobs, w))
  }

  // rows are the rows of all keys, once each, sorted by the comparator.
  ghost predicate Summarises(rows: seq<Row>, jobs: seq<Job>, w: Window) {
    SortedRows(rows) && exists order :: Arranged(rows, jobs, w, order)
  }

  method MakeRows(groups: map<string, Agg>, ghost jobs: seq<Job>, ghost w: Window)
    returns (rows: seq<Row>, ghost order: seq<string>)
    requires Groups(groups, jobs, |jobs|, w)
    ensures Lists(order, groups.Keys) && rows == RowsIn(order, jobs, w)
  {
    hide RowOf, AggOf, KeysIn;
    rows, order := [], [];
    var left := groups.Keys;
    while left != {}
      invariant left <= groups.Keys && Lists(order, groups.Keys - left) && rows == RowsIn(order, jobs, w)
      decreases |left|
    {
      var k :| k in left;
      var row := MakeRow(k, groups[k]);
      rows, order, left := rows + [row], order + [k], left - {k};
    }
  }

  /** The rows of a window: the groups' rows in the comparator's order. */
  method AdminModelStats(m: Memory, since: int, until: int) returns (rows: seq<Row>)
    requires m.Valid()
    ensures until <= since ==> rows == []
    ensures Summarises(rows, m.jobs, Window(since, until))
  {
    hide RowOf, AggOf, Groups, Lists, SortedRows;
    if !(until > since) {
      EmptyWindow(m.jobs, |m.jobs|, Window(since, until));
      return [];
    }
    var groups := Group(m, Window(since, until));
    ghost var order;
    rows, order := MakeRows(groups, m.jobs, Window(since, until));
    GroupsKeys(groups, m.jobs, Window(since, until));
    rows := SortModelStatRows(rows);
    assert Arranged(rows, m.jobs, Window(since, until), order);
  }

  lemma GroupsKeys(groups: map<string, Agg>, jobs: seq<Job>, w: Window)
    requires Groups(groups, jobs, |jobs|, w)
    ensures groups.Keys == KeysIn(jobs, |jobs|, w)
  {
  }

  lemma {:induction false} EmptyWindow(jobs: seq<Job>, n: nat, w: Window)
    requires w.until <= w.since && n <= |jobs|
    ensures KeysIn(jobs, n, w) == {}
    ensures n == |jobs| ==> Summarises([], jobs, w)
  {
    hide KeyOf;
    if n > 0 {
      EmptyWindow(jobs, n - 1, w);
    }
    if n == |jobs| {
      assert Arranged([], jobs, w, []);
    }
  }

  // How many of the first n jobs fall in the window, are shown as given, and have the status.
  function Tally(jobs: seq<Job>, n: nat, w: Window, shown: (string, string), status: Status): nat
    requires n <= |jobs|
  {
    if n == 0 then 0
    else
      var j := jobs[n - 1];
      Tally(jobs, n - 1, w, shown, status) +
      if w.Contains(j) && Shown(KeyOf(j)) == shown && j.status == status then 1 else 0
  }

  // The failed ones with an error code.
  function TallyCode(jobs: seq<Job>, n: nat, w: Window, shown: (string, string), code: string): nat
    requires n <= |jobs|
  {
    if n == 0 then 0
    else
      var j := jobs[n - 1];
      TallyCode(jobs, n - 1, w, shown, code) +
      if w.Contains(j) && Shown(KeyOf(j)) == shown && j.status == Failed && FailureCode(j) == code then 1 else 0
  }

  // A group's figures are exact counts, and its failures by code add up to its failures.
  lemma {:induction false} GroupIsExact(jobs: seq<Job>, n: nat, key: string, w: Window, code: string)
    requires n <= |jobs| && NUL in key
    ensures var a := AggOf(jobs, n, key, w);
            && a.succ == Tally(jobs, n, w, Shown(key), Succeeded)
            && a.fail == Tally(jobs, n, w, Shown(key), Failed)
            && CodeCount(a.failCodes, code) == TallyCode(jobs, n, w, Shown(key), code)
            && MapSum(a.failCodes) == a.fail
            && (key in KeysIn(jobs, n, w) ==> a.succ + a.fail > 0)
  {
    hide KeyOf, Shown, FailureCode, Latency, MapSum;
    if n == 0 {
      AllZero(map[]);
    } else {
      var j, before := jobs[n - 1], AggOf(jobs, n - 1, key, w);
      GroupIsExact(jobs, n - 1, key, w, code);
      ShownIsInjective(KeyOf(j), key);
      MapSumUpdate(before.failCodes, FailureCode(j), CodeCount(before.failCodes, FailureCode(j)) + 1);
    }
  }

  // A row stands for a key.
  lemma {:induction false} KeyOfRow(rows: seq<Row>, jobs: seq<Job>, w: Window, order: seq<string>, i: nat)
    returns (key: string)
    requires Arranged(rows, jobs, w, order) && i < |rows|
    ensures key in KeysIn(jobs, |jobs|, w) && key in order && rows[i] == RowOf(key, AggOf(jobs, |jobs|, key, w))
    ensures (rows[i].model, rows[i].provider) == Shown(key)
  {
    hide AggOf, KeysIn;
    assert rows[i] in multiset(rows);
    var at :| 0 <= at < |order| && RowsIn(order, jobs, w)[at] == rows[i];
    key := order[at];
  }

  /**
   Every row's counts are the exact numbers of finished jobs of the window that are shown under
   its model and provider; its failures by code are exact and add up; its rate is exact.
   */
  lemma RowsAreExact(rows: seq<Row>, jobs: seq<Job>, w: Window, i: nat, code: string)
    requires Summarises(rows, jobs, w) && i < |rows|
    ensures var r := rows[i];
            && r.succeeded == Tally(jobs, |jobs|, w, (r.model, r.provider), Succeeded)
            && r.failed == Tally(jobs, |jobs|, w, (r.model, r.provider), Failed)
            && CodeCount(r.failuresByCode, code) == TallyCode(jobs, |jobs|, w, (r.model, r.provider), code)
            && MapSum(r.failuresByCode) == r.failed
            && r.total == r.succeeded + r.failed > 0
            && r.successRate * r.total as real == r.succeeded as real
            && (r.sampleInsufficient <==> r.total < 3)
  {
    hide AggOf, KeysIn, Tally, TallyCode, MapSum, SortedRows, Shown, P95, Average;
    var order :| Arranged(rows, jobs, w, order);
    var key := KeyOfRow(rows, jobs, w, order, i);
    GroupIsExact(jobs, |jobs|, key, w, code);
  }

  lemma {:induction false} DistinctCount(s: seq<Row>, x: Row)
    requires forall i, j :: 0 <= i < j < |s| ==> s[i] != s[j]
    ensures multiset(s)[x] <= 1
  {
    if s != [] {
      var n := |s| - 1;
      DistinctCount(s[..n], x);
      assert s == s[..n] + [s[n]];
      assert s[n] !in s[..n];
    }
  }

  lemma TwiceCount(s: seq<Row>, i: nat, j: nat)
    requires i < j < |s| && s[i] == s[j]
    ensures multiset(s)[s[i]] >= 2
  {
    assert s == s[..j] + s[j..];
    assert s[..j][i] == s[i] && s[j..][0] == s[i];
    assert s[i] in multiset(s[..j]) && s[i] in multiset(s[j..]);
  }

  /** No two rows are shown under the same model and provider, whatever the models contain. */
  lemma RowsAreDistinct(rows: seq<Row>, jobs: seq<Job>, w: Window, i: nat, j: nat)
    requires Summarises(rows, jobs, w) && i < j < |rows|
    ensures (rows[i].model, rows[i].provider) != (rows[j].model, rows[j].provider)
  {
    hide AggOf, KeysIn, SortedRows, Shown, Finish;
    var order :| Arranged(rows, jobs, w, order);
    var a := KeyOfRow(rows, jobs, w, order, i);
    var b := KeyOfRow(rows, jobs, w, order, j);
    if (rows[i].model, rows[i].provider) == (rows[j].model, rows[j].provider) {
      ShownIsInjective(a, b);
      TwiceCount(rows, i, j);
      OrderedRowsDiffer(jobs, w, order);
      DistinctCount(RowsIn(order, jobs, w), rows[i]);
    }
  }

  lemma OrderedRowsDiffer(jobs: seq<Job>, w: Window, order: seq<string>)
    requires Lists(order, KeysIn(jobs, |jobs|, w))
    ensures var rows := RowsIn(order, jobs, w); forall i, j :: 0 <= i < j < |rows| ==> rows[i] != rows[j]
  {
    hide AggOf, KeysIn, Shown;
    forall i, j | 0 <= i < j < |order|
      ensures RowsIn(order, jobs, w)[i] != RowsIn(order, jobs, w)[j]
    {
      ShownIsInjective(order[i], order[j]);
    }
  }

  lemma {:induction false} KeyIsIn(jobs: seq<Job>, n: nat, w: Window, i: nat)
    requires i < n <= |jobs| && w.Contains(jobs[i])
    ensures KeyOf(jobs[i]) in KeysIn(jobs, n, w)
  {
    if i < n - 1 {
      KeyIsIn(jobs, n - 1, w, i);
    }
  }

  /**
   Every finished job of the window is counted in one row, and that row is labelled with the
   job's own model and provider exactly when the model holds no NUL.
   */
  lemma EveryJobHasARow(rows: seq<Row>, jobs: seq<Job>, w: Window, n: nat) returns (i: nat)
    requires Summarises(rows, jobs, w) && n < |jobs| && w.Contains(jobs[n])
    ensures i < |rows| && (rows[i].model, rows[i].provider) == Shown(KeyOf(jobs[n]))
    ensures (rows[i].model, rows[i].provider) == (StatsModel(jobs[n]), StatsProvider(jobs[n]))
       <==> NUL !in StatsModel(jobs[n])
  {
    hide AggOf, KeysIn, SortedRows, Shown, KeyOf, StatsModel, StatsProvider;
    var order :| Arranged(rows, jobs, w, order);
    KeyIsIn(jobs, |jobs|, w, n);
    var at :| 0 <= at < |order| && order[at] == KeyOf(jobs[n]);
    assert RowsIn(order, jobs, w)[at] in multiset(rows);
    i :| 0 <= i < |rows| && rows[i] == RowsIn(order, jobs, w)[at];
    ShownAsItself(jobs[n]);
  }
}
