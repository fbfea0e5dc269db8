/**
 Bucketed model statistics (generateBucketStarts and AdminModelStatsTimeseries in
 internal/jobstore/model_stats.go): a window is cut into days or hours that start at a wall
 clock boundary, each clipped to the window. The wall clock is a parameter: the start of the
 day or hour of a time, never after it.
 */
module StatsBuckets {
  import opened GoStrings
  import opened Jobs
  import opened JobStore
  import opened ModelStats
  import opened StatRows

  datatype Granularity = Day | Hour {
    function Width(): int {
      if Hour? then 3_600_000_000_000 else 24 * 3_600_000_000_000
    }
  }

  function NormalizeGranularity(g: string): Option<Granularity> {
    var s := ToLower(TrimSpace(g));
    if s == "" || s == "day" then Some(Day)
    else if s == "hour" then Some(Hour)
    else None
  }

  // Evenly spaced starts whose buckets cover [since, until), the first and the last partly.
  ghost predicate Tiles(starts: seq<int>, width: int, since: int, until: int) {
    && starts != []
    && (forall i :: 0 <= i < |starts| ==> starts[i] == starts[0] + i * width)
    && starts[0] <= since < starts[0] + width
    && starts[|starts| - 1] < until <= starts[|starts| - 1] + width
  }

  method GenerateBucketStarts(since: int, until: int, width: int, first: int) returns (out: seq<int>)
    requires width > 0 && first <= since
    ensures until <= since ==> out == []
    ensures until > since ==> Tiles(out, width, since, until)
  {
    out := [];
    if !(until > since) {
      return;
    }
    var t := first;
    while t < until
      invariant out == [] ==> t <= since
      invariant out != [] ==>
                  && t == out[0] + |out| * width && out[0] <= since < out[0] + width
                  && out[|out| - 1] < until
      invariant forall i :: 0 <= i < |out| ==> out[i] == out[0] + i * width
      decreases until - t
    {
      var te := t + width;
      if te > since && t < until {
        Times(|out|, width);
        out := out + [t];
      }
      t := t + width;
    }
  }

  lemma Times(n: nat, width: int)
    ensures (n + 1) * width == n * width + width
  {
  }

  // Bucket i, clipped to the window.
  function Clipped(start: int, width: int, since: int, until: int): Window {
    Window(if start > since then start else since, if start + width < until then start + width else until)
  }

  /** Clipped buckets are not empty, follow each other without gap or overlap, and fill the window. */
  lemma {:induction false} ClippedBuckets(starts: seq<int>, width: int, since: int, until: int, i: nat)
    requires Tiles(starts, width, since, until) && since < until && width > 0 && i < |starts|
    ensures Clipped(starts[i], width, since, until).since < Clipped(starts[i], width, since, until).until
    ensures i == 0 ==> Clipped(starts[i], width, since, until).since == since
    ensures i > 0 ==> Clipped(starts[i], width, since, until).since == Clipped(starts[i - 1], width, since, until).until
    ensures i == |starts| - 1 ==> Clipped(starts[i], width, since, until).until == until
  {
    Scaled(0, i, width);
    Scaled(1, i, width);
    Scaled(i, |starts| - 1, width);
    Scaled(i + 1, |starts| - 1, width);
    if i > 0 {
      Times(i - 1, width);
      assert starts[i] == starts[i - 1] + width;
    }
  }

  lemma Scaled(a: int, b: int, width: int)
    requires width > 0
    ensures a <= b ==> a * width <= b * width
  {
  }

  datatype Bucket = Bucket(start: int, end: int, models: seq<Row>)

  predicate Passes(filter: set<string>, model: string) {
    filter == {} || TrimSpace(model) in filter
  }

  // A row without its failure codes.
  function Strip(r: Row): Row {
    Finish(r.(failuresByCode := map[]))
  }

  function StrippedRows(rows: seq<Row>, n: nat, filter: set<string>): seq<Row>
    requires n <= |rows|
  {
    if n == 0 then []
    else StrippedRows(rows, n - 1, filter) + if Passes(filter, rows[n - 1].model) then [Strip(rows[n - 1])] else []
  }

  ghost predicate Filtered(out: seq<Row>, rows: seq<Row>, filter: set<string>) {
    SortedRows(out) && multiset(out) == multiset(StrippedRows(rows, |rows|, filter))
  }

  method FilterAndStripFailures(rows: seq<Row>, filter: set<string>) returns (out: seq<Row>)
    ensures Filtered(out, rows, filter)
  {
    hide Passes, Strip, SortedRows;
    out := [];
    for i := 0 to |rows|
      invariant out == StrippedRows(rows, i, filter)
    {
      if Passes(filter, rows[i].model) {
        out := out + [Strip(rows[i])];
      }
    }
    out := SortModelStatRows(out);
  }

  // The rows of one clipped bucket.
  ghost predicate BucketOf(b: Bucket, jobs: seq<Job>, start: int, width: int, since: int, until: int,
                           filter: set<string>)
  {
    && b.start == start && b.end == start + width
    && exists rows :: Summarises(rows, jobs, Clipped(start, width, since, until)) && Filtered(b.models, rows, filter)
  }

  // One bucket for each start.
  ghost predicate Buckets(buckets: seq<Bucket>, jobs: seq<Job>, starts: seq<int>, width: int, since: int,
                          until: int, filter: set<string>)
  {
    && |buckets| == |starts|
    && forall i :: 0 <= i < |buckets| ==> BucketOf(buckets[i], jobs, starts[i], width, since, until, filter)
  }

  function FilterSet(ids: seq<string>): set<string> {
    set id | id in ids && TrimSpace(id) != "" :: TrimSpace(id)
  }

  method MakeFilter(modelFilter: seq<string>) returns (filter: set<string>)
    ensures filter == FilterSet(modelFilter)
  {
    hide TrimSpace;
    filter := {};
    for i := 0 to |modelFilter|
      invariant filter == FilterSet(modelFilter[..i])
    {
      assert modelFilter[..i + 1] == modelFilter[..i] + [modelFilter[i]];
      var id := TrimSpace(modelFilter[i]);
      if id != "" {
        filter := filter + {id};
      }
    }
    assert modelFilter[..|modelFilter|] == modelFilter;
  }

  /**
   An unknown granularity or an empty window gives no buckets; otherwise there is one bucket for
   each start, none is skipped, and its rows are those of the clipped bucket that pass the filter.
   */
  method AdminModelStatsTimeseries(m: Memory, since: int, until: int, granularity: string, modelFilter: seq<string>,
                                   wallStart: (Granularity, int) -> int)
    returns (buckets: seq<Bucket>, ghost starts: seq<int>)
    requires m.Valid()
    requires wallStart(Day, since) <= since && wallStart(Hour, since) <= since
    ensures NormalizeGranularity(granularity).None? || until <= since ==> buckets == []
    ensures NormalizeGranularity(granularity).Some? && until > since ==>
              var width := NormalizeGranularity(granularity).value.Width();
              && Tiles(starts, width, since, until)
              && Buckets(buckets, m.jobs, starts, width, since, until, FilterSet(modelFilter))
  {
    hide NormalizeGranularity, Summarises, Filtered, FilterSet, Tiles;
    buckets, starts := [], [];
    var g := NormalizeGranularity(granularity);
    if g.None? || !(until > since) {
      return;
    }
    var filter := MakeFilter(modelFilter);
    var width := g.value.Width();
    var bucketStarts := GenerateBucketStarts(since, until, width, wallStart(g.value, since));
    starts := bucketStarts;
    for i := 0 to |bucketStarts|
      invariant |buckets| == i
      invariant forall k :: 0 <= k < i ==> BucketOf(buckets[k], m.jobs, starts[k], width, since, until, filter)
    {
      var bs, be := bucketStarts[i], bucketStarts[i] + width;
      var bucketSince, bucketUntil := since, until;
      if bs > bucketSince {
        bucketSince := bs;
      }
      if be < bucketUntil {
        bucketUntil := be;
      }
      ClippedBuckets(starts, width, since, until, i);
      if !(bucketUntil > bucketSince) {
        assert false;
        continue;
      }
      var sub := AdminModelStats(m, bucketSince, bucketUntil);
      var rows := FilterAndStripFailures(sub, filter);
      assert Clipped(bs, width, since, until) == Window(bucketSince, bucketUntil);
      buckets := buckets + [Bucket(bs, be, rows)];
    }
  }

  // What rows say about a model and provider; nothing when they do not mention them.
  function Figure(rows: seq<Row>, shown: (string, string), status: Status): nat {
    if rows == [] then 0
    else if (rows[0].model, rows[0].provider) == shown
    then (if status == Succeeded then rows[0].succeeded else rows[0].failed)
    else Figure(rows[1..], shown, status)
  }

  // If every matching row says v, and there is one unless v is 0, the rows say v.
  lemma {:induction false} FigureIs(rows: seq<Row>, shown: (string, string), status: Status, v: nat)
    requires forall i :: 0 <= i < |rows| && (rows[i].model, rows[i].provider) == shown ==>
               (if status == Succeeded then rows[i].succeeded else rows[i].failed) == v
    requires v > 0 ==> exists i :: 0 <= i < |rows| && (rows[i].model, rows[i].provider) == shown
    ensures Figure(rows, shown, status) == v
  {
    if rows != [] && (rows[0].model, rows[0].provider) != shown {
      if v > 0 {
        var i :| 0 <= i < |rows| && (rows[i].model, rows[i].provider) == shown;
        assert rows[1..][i - 1] == rows[i];
      }
      FigureIs(rows[1..], shown, status, v);
    }
  }

  lemma {:induction false} TalliedJob(jobs: seq<Job>, n: nat, w: Window, shown: (string, string), status: Status)
    returns (i: nat)
    requires n <= |jobs| && Tally(jobs, n, w, shown, status) > 0
    ensures i < n && w.Contains(jobs[i]) && Shown(KeyOf(jobs[i])) == shown
  {
    hide KeyOf, Shown;
    if w.Contains(jobs[n - 1]) && Shown(KeyOf(jobs[n - 1])) == shown {
      i := n - 1;
    } else {
      i := TalliedJob(jobs, n - 1, w, shown, status);
    }
  }

  // The summary of a window says exactly how many jobs there are.
  lemma SummaryFigure(rows: seq<Row>, jobs: seq<Job>, w: Window, shown: (string, string), status: Status)
    requires Summarises(rows, jobs, w) && (status == Succeeded || status == Failed)
    ensures Figure(rows, shown, status) == Tally(jobs, |jobs|, w, shown, status)
  {
    hide Summarises, Tally, TallyCode, KeyOf, Shown, Figure;
    var v := Tally(jobs, |jobs|, w, shown, status);
    forall i | 0 <= i < |rows| && (rows[i].model, rows[i].provider) == shown
      ensures (if status == Succeeded then rows[i].succeeded else rows[i].failed) == v
    {
      RowsAreExact(rows, jobs, w, i, "");
    }
    if v > 0 {
      var n := TalliedJob(jobs, |jobs|, w, shown, status);
      var i := EveryJobHasARow(rows, jobs, w, n);
    }
    FigureIs(rows, shown, status, v);
  }

  lemma {:induction false} StrippedSource(rows: seq<Row>, n: nat, filter: set<string>, r: Row) returns (i: nat)
    requires n <= |rows| && r in StrippedRows(rows, n, filter)
    ensures i < n && Passes(filter, rows[i].model) && r == Strip(rows[i])
  {
    hide Passes, Strip;
    if Passes(filter, rows[n - 1].model) && r == Strip(rows[n - 1]) {
      i := n - 1;
    } else {
      i := StrippedSource(rows, n - 1, filter, r);
    }
  }

  lemma {:induction false} StrippedIn(rows: seq<Row>, n: nat, filter: set<string>, i: nat)
    requires i < n <= |rows| && Passes(filter, rows[i].model)
    ensures Strip(rows[i]) in StrippedRows(rows, n, filter)
  {
    hide Passes, Strip;
    if i < n - 1 {
      StrippedIn(rows, n - 1, filter, i);
    }
  }

  // Filtering changes no figure of a model that passes, and drops the others.
  lemma FilteredFigure(out: seq<Row>, rows: seq<Row>, jobs: seq<Job>, w: Window, filter: set<string>,
                       shown: (string, string), status: Status)
    requires Summarises(rows, jobs, w) && Filtered(out, rows, filter) && (status == Succeeded || status == Failed)
    ensures Figure(out, shown, status) == if Passes(filter, shown.0) then Tally(jobs, |jobs|, w, shown, status) else 0
  {
    hide Summarises, Tally, TallyCode, KeyOf, Shown, Figure, Passes, StrippedRows, SortedRows;
    var v := if Passes(filter, shown.0) then Tally(jobs, |jobs|, w, shown, status) else 0;
    forall k | 0 <= k < |out| && (out[k].model, out[k].provider) == shown
      ensures (if status == Succeeded then out[k].succeeded else out[k].failed) == v
    {
      assert out[k] in multiset(out);
      var i := StrippedSource(rows, |rows|, filter, out[k]);
      RowsAreExact(rows, jobs, w, i, "");
    }
    if v > 0 {
      var n := TalliedJob(jobs, |jobs|, w, shown, status);
      var i := EveryJobHasARow(rows, jobs, w, n);
      StrippedIn(rows, |rows|, filter, i);
      assert Strip(rows[i]) in multiset(out);
      var k :| 0 <= k < |out| && out[k] == Strip(rows[i]);
    }
    FigureIs(out, shown, status, v);
  }

  // Adjacent windows share nothing and miss nothing.
  lemma {:induction false} TallySplits(jobs: seq<Job>, n: nat, a: int, b: int, c: int, shown: (string, string),
                                       status: Status)
    requires n <= |jobs| && a <= b <= c
    ensures Tally(jobs, n, Window(a, b), shown, status) + Tally(jobs, n, Window(b, c), shown, status)
         == Tally(jobs, n, Window(a, c), shown, status)
  {
    hide KeyOf, Shown;
    if n > 0 {
      TallySplits(jobs, n - 1, a, b, c, shown, status);
    }
  }

  // The sum of a figure over the first n buckets.
  function FigureSum(buckets: seq<Bucket>, n: nat, shown: (string, string), status: Status): nat
    requires n <= |buckets|
  {
    if n == 0 then 0 else FigureSum(buckets, n - 1, shown, status) + Figure(buckets[n - 1].models, shown, status)
  }

  lemma {:induction false} FirstBuckets(buckets: seq<Bucket>, jobs: seq<Job>, starts: seq<int>, width: int,
                                        since: int, until: int, filter: set<string>, n: nat,
                                        shown: (string, string), status: Status)
    requires Buckets(buckets, jobs, starts, width, since, until, filter)
    requires Tiles(starts, width, since, until) && since < until && width > 0
    requires 0 < n <= |buckets| && (status == Succeeded || status == Failed)
    ensures FigureSum(buckets, n, shown, status) ==
              if Passes(filter, shown.0)
              then Tally(jobs, |jobs|, Window(since, Clipped(starts[n - 1], width, since, until).until), shown, status)
              else 0
  {
    hide Tally, KeyOf, Shown, Figure, Passes, Summarises, Filtered, Tiles;
    var w := Clipped(starts[n - 1], width, since, until);
    ClippedBuckets(starts, width, since, until, n - 1);
    assert BucketOf(buckets[n - 1], jobs, starts[n - 1], width, since, until, filter);
    var rows :| Summarises(rows, jobs, w) && Filtered(buckets[n - 1].models, rows, filter);
    FilteredFigure(buckets[n - 1].models, rows, jobs, w, filter, shown, status);
    if n > 1 {
      FirstBuckets(buckets, jobs, starts, width, since, until, filter, n - 1, shown, status);
      SinceBefore(starts, width, since, until, n - 1);
      TallySplits(jobs, |jobs|, since, w.since, w.until, shown, status);
    }
  }

  lemma {:induction false} SinceBefore(starts: seq<int>, width: int, since: int, until: int, i: nat)
    requires Tiles(starts, width, since, until) && since < until && width > 0 && i < |starts|
    ensures since <= Clipped(starts[i], width, since, until).since <= Clipped(starts[i], width, since, until).until
  {
    ClippedBuckets(starts, width, since, until, i);
  }

  /**
   Bucketing loses and invents nothing: for every model and provider that pass the filter, the
   succeeded and the failed counts summed over all buckets are those of the whole window.
   */
  lemma {:induction false} BucketsConserve(buckets: seq<Bucket>, jobs: seq<Job>, starts: seq<int>, width: int,
                                           since: int, until: int, filter: set<string>, whole: seq<Row>,
                                           shown: (string, string), status: Status)
    requires Buckets(buckets, jobs, starts, width, since, until, filter)
    requires Tiles(starts, width, since, until) && since < until && width > 0
    requires Summarises(whole, jobs, Window(since, until)) && (status == Succeeded || status == Failed)
    ensures FigureSum(buckets, |buckets|, shown, status) ==
              if Passes(filter, shown.0) then Figure(whole, shown, status) else 0
  {
    hide Tally, KeyOf, Shown, Figure, Passes, Summarises, Filtered;
    FirstBuckets(buckets, jobs, starts, width, since, until, filter, |buckets|, shown, status);
    ClippedBuckets(starts, width, since, until, |starts| - 1);
    SummaryFigure(whole, jobs, Window(since, until), shown, status);
  }
}
