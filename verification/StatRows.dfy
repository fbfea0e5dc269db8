/**
 One row of the model statistics (internal/jobstore/model_stats.go): its key, its derived
 figures, and the order in which rows are shown. The success rate is an exact real.
 */
module StatRows {
  import opened GoStrings
  import opened Jobs

  const NUL := 0 as char

  function StatsModel(j: Job): string {
    if TrimSpace(j.effectiveModel) != "" then TrimSpace(j.effectiveModel) else TrimSpace(j.model)
  }

  function StatsProvider(j: Job): string {
    if TrimSpace(j.effectiveProvider) != "" then TrimSpace(j.effectiveProvider)
    else if TrimSpace(j.provider) != "" then TrimSpace(j.provider)
    else "(unknown)"
  }

  function ModelStatKey(model: string, provider: string): (k: string)
    ensures NUL in k
  {
    var k := TrimSpace(model) + [NUL] + TrimSpace(provider);
    assert k[|TrimSpace(model)|] == NUL;
    k
  }

  function KeyOf(j: Job): (k: string)
    ensures NUL in k
  {
    ModelStatKey(StatsModel(j), StatsProvider(j))
  }

  // The model and the provider a key is shown as: it is cut at its first NUL.
  function Shown(key: string): (string, string)
    requires NUL in key
  {
    IndexIsFirst(key, NUL);
    (key[..Index(key, NUL)], key[Index(key, NUL) + 1..])
  }

  // Distinct keys are shown differently.
  lemma ShownIsInjective(a: string, b: string)
    requires NUL in a && NUL in b
    ensures Shown(a) == Shown(b) <==> a == b
  {
    IndexIsFirst(a, NUL);
    IndexIsFirst(b, NUL);
    assert a == Shown(a).0 + [NUL] + Shown(a).1;
    assert b == Shown(b).0 + [NUL] + Shown(b).1;
  }

  lemma TrimmedTwice(s: string)
    ensures TrimSpace(TrimSpace(s)) == TrimSpace(s)
  {
    TrimSpaceTrims(s);
    TrimSpaceFixed(TrimSpace(s));
  }

  lemma StatsAreTrimmed(j: Job)
    ensures TrimSpace(StatsModel(j)) == StatsModel(j) && TrimSpace(StatsProvider(j)) == StatsProvider(j)
  {
    hide TrimSpace;
    TrimmedTwice(j.effectiveModel);
    TrimmedTwice(j.model);
    TrimmedTwice(j.effectiveProvider);
    TrimmedTwice(j.provider);
    TrimSpaceFixed("(unknown)");
  }

  /** A job is shown under its own model and provider exactly when its model holds no NUL. */
  lemma ShownAsItself(j: Job)
    ensures Shown(KeyOf(j)) == (StatsModel(j), StatsProvider(j)) <==> NUL !in StatsModel(j)
  {
    hide TrimSpace, StatsModel, StatsProvider;
    StatsAreTrimmed(j);
    var m, p, k := StatsModel(j), StatsProvider(j), KeyOf(j);
    assert k == m + [NUL] + p;
    IndexIsFirst(k, NUL);
    if NUL !in m {
      IndexAfterPrefix(m, NUL, p);
      assert k[..|m|] == m && k[|m| + 1..] == p;
    } else {
      assert NUL !in Shown(k).0;
    }
  }

  datatype Row = Row(
    model: string, provider: string, succeeded: nat, failed: nat, total: nat, successRate: real,
    avgProcessingMs: Option<int>, p95ProcessingMs: Option<int>, failuresByCode: map<string, int>,
    sampleInsufficient: bool)

  function Finish(r: Row): Row {
    var total := r.succeeded + r.failed;
    r.(total := total,
       successRate := if total > 0 then r.succeeded as real / total as real else r.successRate,
       sampleInsufficient := total < 3 || r.sampleInsufficient)
  }

  // Go compares strings code point by code point (byte by byte, for valid UTF-8).
  predicate StringLess(s: string, t: string) {
    if t == "" then false
    else if s == "" then true
    else if s[0] != t[0] then s[0] < t[0]
    else StringLess(s[1..], t[1..])
  }

  lemma {:induction false} StringLessTransitive(s: string, t: string, u: string)
    requires StringLess(s, t) && StringLess(t, u)
    ensures StringLess(s, u)
  {
    if s != "" && s[0] == t[0] && t[0] == u[0] {
      StringLessTransitive(s[1..], t[1..], u[1..]);
    }
  }

  lemma {:induction false} StringLessTotal(s: string, t: string)
    ensures !(StringLess(s, t) && StringLess(t, s))
    ensures StringLess(s, t) || StringLess(t, s) <==> s != t
  {
    if s != "" && t != "" && s[0] == t[0] {
      StringLessTotal(s[1..], t[1..]);
      assert s == [s[0]] + s[1..] && t == [t[0]] + t[1..];
    }
  }

  // Whether a row is shown before another: the lower success rate first.
  predicate Less(a: Row, b: Row) {
    if a.successRate != b.successRate then a.successRate < b.successRate
    else if a.failed != b.failed then a.failed > b.failed
    else StringLess(a.model, b.model)
  }

  /** The comparator is a strict weak order, so a sort by it is well defined up to ties. */
  lemma LessIsStrictWeakOrder(a: Row, b: Row, c: Row)
    ensures !Less(a, a)
    ensures Less(a, b) ==> !Less(b, a)
    ensures Less(a, b) && Less(b, c) ==> Less(a, c)
    ensures !Less(a, b) && !Less(b, c) ==> !Less(a, c)
  {
    hide StringLess;
    StringLessTotal(a.model, a.model);
    StringLessTotal(a.model, b.model);
    StringLessTotal(b.model, c.model);
    StringLessTotal(a.model, c.model);
    if StringLess(a.model, b.model) && StringLess(b.model, c.model) {
      StringLessTransitive(a.model, b.model, c.model);
    }
    if StringLess(c.model, b.model) && StringLess(b.model, a.model) {
      StringLessTransitive(c.model, b.model, a.model);
    }
  }

  // Rows tie exactly when rate, failures and model agree.
  lemma LessTies(a: Row, b: Row)
    ensures !Less(a, b) && !Less(b, a) <==> a.successRate == b.successRate && a.failed == b.failed && a.model == b.model
  {
    StringLessTotal(a.model, b.model);
  }

  ghost predicate SortedRows(rows: seq<Row>) {
    forall i, j :: 0 <= i < j < |rows| ==> !Less(rows[j], rows[i])
  }

  lemma InsertedSorted(rows: seq<Row>, at: nat, r: Row)
    requires SortedRows(rows) && at <= |rows|
    requires (forall k :: 0 <= k < at ==> !Less(r, rows[k])) && forall k :: at <= k < |rows| ==> !Less(rows[k], r)
    ensures SortedRows(rows[..at] + [r] + rows[at..])
  {
    hide Less;
  }

  method InsertRow(rows: seq<Row>, r: Row) returns (out: seq<Row>)
    requires SortedRows(rows)
    ensures SortedRows(out) && multiset(out) == multiset(rows) + multiset{r}
  {
    hide Less, SortedRows;
    var at: nat := |rows|;
    while at > 0 && Less(r, rows[at - 1])
      invariant at <= |rows|
      invariant forall k :: at <= k < |rows| ==> Less(r, rows[k])
    {
      at := at - 1;
    }
    out := rows[..at] + [r] + rows[at..];
    assert rows == rows[..at] + rows[at..];
    forall k | 0 <= k < at
      ensures !Less(r, rows[k])
    {
      NotAfterLater(rows, k, at - 1, r);
    }
    forall k | at <= k < |rows|
      ensures !Less(rows[k], r)
    {
      LessIsStrictWeakOrder(r, rows[k], r);
    }
    InsertedSorted(rows, at, r);
  }

  lemma NotAfterLater(rows: seq<Row>, i: nat, j: nat, r: Row)
    requires SortedRows(rows) && i <= j < |rows| && !Less(r, rows[j])
    ensures !Less(r, rows[i])
  {
    LessIsStrictWeakOrder(r, rows[j], rows[i]);
  }

  method SortModelStatRows(rows: seq<Row>) returns (out: seq<Row>)
    ensures SortedRows(out) && multiset(out) == multiset(rows)
  {
    out := [];
    for i := 0 to |rows|
      invariant SortedRows(out) && multiset(out) == multiset(rows[..i])
    {
      out := InsertRow(out, rows[i]);
      assert rows[..i + 1] == rows[..i] + [rows[i]];
    }
    assert rows[..|rows|] == rows;
  }
}
