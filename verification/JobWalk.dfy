/**
 Following List's cursors while other callers create, update and evict jobs
 (internal/jobstore/store.go). A walk starts with an empty cursor, may let any number of
 store operations happen between two pages, and ends when List returns an empty cursor.
 */
module JobWalk {
  import opened Jobs

  datatype Op = CreateJob(job: Job) | UpdateJob(id: string, f: Job -> Job) | EvictJobs(cutoff: int)

  // The updates of callers keep the id and the owner; a new id is non-empty and was not
  // used by any job of `start`.
  ghost predicate Allowed(op: Op, jobs: seq<Job>, start: set<string>) {
    match op
    case CreateJob(job) => job.id != "" && job.id !in IdsOf(jobs) && job.id !in start
    case UpdateJob(id, f) =>
      forall j :: j in jobs && j.id == id ==>
        f(j).id == id && f(j).userID == j.userID && f(j).sessionID == j.sessionID
    case EvictJobs(_) => true
  }

  ghost function Apply(op: Op, jobs: seq<Job>): seq<Job> {
    match op
    case CreateJob(job) => jobs + [job]
    case UpdateJob(id, f) => Updated(jobs, id, f)
    case EvictJobs(cutoff) => LiveJobs(jobs, cutoff)
  }

  ghost predicate AllAllowed(ops: seq<Op>, jobs: seq<Job>, start: set<string>) {
    ops == [] || (Allowed(ops[0], jobs, start) && AllAllowed(ops[1..], Apply(ops[0], jobs), start))
  }

  ghost function ApplyAll(ops: seq<Op>, jobs: seq<Job>): seq<Job> {
    if ops == [] then jobs else ApplyAll(ops[1..], Apply(ops[0], jobs))
  }

  function IdSeq(jobs: seq<Job>): (r: seq<string>)
    ensures |r| == |jobs| && forall i :: 0 <= i < |r| ==> r[i] == jobs[i].id
  {
    seq(|jobs|, i requires 0 <= i < |jobs| => jobs[i].id)
  }

  // The ids of a scope's jobs, newest first.
  function SnapIds(jobs: seq<Job>, scope: OwnerScope): seq<string> {
    IdSeq(Snapshot(jobs, scope))
  }

  // The ids that are in k, in order.
  function Kept(ids: seq<string>, k: set<string>): seq<string> {
    if ids == [] then [] else (if ids[0] in k then [ids[0]] else []) + Kept(ids[1..], k)
  }

  lemma {:induction false} KeptConcat(a: seq<string>, b: seq<string>, k: set<string>)
    ensures Kept(a + b, k) == Kept(a, k) + Kept(b, k)
  {
    if a == [] {
      assert a + b == b;
    } else {
      assert (a + b)[0] == a[0] && (a + b)[1..] == a[1..] + b;
      KeptConcat(a[1..], b, k);
      assert Kept(a + b, k) == (if a[0] in k then [a[0]] else []) + (Kept(a[1..], k) + Kept(b, k));
    }
  }

  lemma {:induction false} KeptAgree(ids: seq<string>, k: set<string>, k': set<string>)
    requires forall id :: id in ids ==> (id in k <==> id in k')
    ensures Kept(ids, k) == Kept(ids, k')
  {
    if ids != [] {
      KeptAgree(ids[1..], k, k');
    }
  }

  lemma {:induction false} KeptMembers(ids: seq<string>, k: set<string>)
    ensures forall id :: id in Kept(ids, k) <==> id in ids && id in k
    ensures (forall id :: id in ids ==> id in k) ==> Kept(ids, k) == ids
    ensures |Kept(ids, k)| <= |ids|
  {
    if ids != [] {
      KeptMembers(ids[1..], k);
      assert forall id :: id in ids <==> id == ids[0] || id in ids[1..];
    }
  }

  lemma {:induction false} KeptTwice(ids: seq<string>, k: set<string>, k': set<string>)
    ensures Kept(Kept(ids, k), k') == Kept(ids, k * k')
  {
    if ids != [] {
      KeptTwice(ids[1..], k, k');
      KeptConcat(if ids[0] in k then [ids[0]] else [], Kept(ids[1..], k), k');
    }
  }

  function OwnId(job: Job, scope: OwnerScope): seq<string> {
    if scope.ListContains(job) then [job.id] else []
  }

  lemma {:induction false} SnapIdsAppend(jobs: seq<Job>, job: Job, scope: OwnerScope, after: seq<Job>)
    requires after == jobs + [job]
    ensures SnapIds(after, scope) == OwnId(job, scope) + SnapIds(jobs, scope)
  {
    assert after[..|jobs|] == jobs;
  }

  // What one operation does to the newest-first ids of a scope.
  lemma {:induction false} UpdateKeepsSnapIds(jobs: seq<Job>, id: string, f: Job -> Job, scope: OwnerScope)
    requires Allowed(UpdateJob(id, f), jobs, {})
    ensures SnapIds(Updated(jobs, id, f), scope) == SnapIds(jobs, scope)
  {
    if jobs == [] {
      assert Updated(jobs, id, f) == jobs;
    } else {
      var before, last := jobs[..|jobs| - 1], jobs[|jobs| - 1];
      var last' := if last.id == id then f(last) else last;
      assert OwnId(last, scope) == OwnId(last', scope);
      UpdateKeepsSnapIds(before, id, f, scope);
      assert jobs == before + [last] && Updated(jobs, id, f) == Updated(before, id, f) + [last'];
      SnapIdsAppend(before, last, scope, before + [last]);
      SnapIdsAppend(Updated(before, id, f), last', scope, Updated(before, id, f) + [last']);
    }
  }

  lemma {:induction false} EvictKeepsSnapIds(jobs: seq<Job>, cutoff: int, scope: OwnerScope)
    requires DistinctIds(jobs)
    ensures SnapIds(LiveJobs(jobs, cutoff), scope) == Kept(SnapIds(jobs, scope), IdsOf(LiveJobs(jobs, cutoff)))
  {
    hide *;
    if jobs == [] {
      NothingToEvict(cutoff, scope);
    } else {
      var before, last := jobs[..|jobs| - 1], jobs[|jobs| - 1];
      assert jobs == before + [last];
      IdsAppend(before, last);
      EvictKeepsSnapIds(before, cutoff, scope);
      EvictOneMore(before, last, cutoff, scope);
    }
  }

  lemma NothingToEvict(cutoff: int, scope: OwnerScope)
    ensures SnapIds(LiveJobs([], cutoff), scope) == Kept(SnapIds([], scope), IdsOf(LiveJobs([], cutoff)))
  {
  }

  lemma KeptOwn(last: Job, scope: OwnerScope, k: set<string>)
    ensures Kept(OwnId(last, scope), k) == if last.id in k then OwnId(last, scope) else []
  {
    hide OwnerScope.ListContains;
    assert [last.id][1..] == [];
  }

  lemma {:induction false} EvictOneMore(before: seq<Job>, last: Job, cutoff: int, scope: OwnerScope)
    requires DistinctIds(before) && last.id !in IdsOf(before)
    requires SnapIds(LiveJobs(before, cutoff), scope) == Kept(SnapIds(before, scope), IdsOf(LiveJobs(before, cutoff)))
    ensures SnapIds(LiveJobs(before + [last], cutoff), scope)
         == Kept(SnapIds(before + [last], scope), IdsOf(LiveJobs(before + [last], cutoff)))
  {
    hide *;
    var live, ids := LiveJobs(before, cutoff), SnapIds(before, scope);
    var k := IdsOf(LiveJobs(before + [last], cutoff));
    LiveAppend(before, last, cutoff);
    LiveJobsIds(before, cutoff);
    SnapIdsAppend(before, last, scope, before + [last]);
    KeptConcat(OwnId(last, scope), ids, k);
    KeptOwn(last, scope, k);
    if last.createdAt > cutoff {
      SnapIdsAppend(live, last, scope, live + [last]);
      IdsAppend(live, last);
      SnapIdsInIds(before, scope);
      KeptAgree(ids, IdsOf(live), k);
    } else {
      assert [] + Kept(ids, k) == Kept(ids, k);
    }
  }

  lemma {:induction false} SnapIdsInIds(jobs: seq<Job>, scope: OwnerScope)
    ensures forall id :: id in SnapIds(jobs, scope) ==> id in IdsOf(jobs)
    ensures DistinctIds(jobs) ==> Distinct(SnapIds(jobs, scope))
  {
    if jobs != [] {
      hide OwnerScope.ListContains;
      hide SnapIds;
      var before, last := jobs[..|jobs| - 1], jobs[|jobs| - 1];
      SnapIdsInIds(before, scope);
      assert jobs == before + [last];
      SnapIdsAppend(before, last, scope, before + [last]);
      assert ([last.id] + SnapIds(before, scope))[1..] == SnapIds(before, scope);
      assert [] + SnapIds(before, scope) == SnapIds(before, scope);
    }
  }

  ghost predicate Distinct(ids: seq<string>) {
    ids == [] || (ids[0] !in ids[1..] && Distinct(ids[1..]))
  }

  /** However the store evolves, a scope's ids are new ones before the surviving old ones. */
  ghost predicate Grown(jobs: seq<Job>, ids: seq<string>, start: set<string>, scope: OwnerScope, news: seq<string>) {
    && DistinctIds(jobs)
    && "" !in IdsOf(jobs)
    && (forall id :: id in news ==> id !in start)
    && SnapIds(jobs, scope) == news + Kept(ids, IdsOf(jobs))
  }

  lemma GrowStep(op: Op, jobs: seq<Job>, ids: seq<string>, start: set<string>, scope: OwnerScope, news: seq<string>)
    returns (news': seq<string>)
    requires Grown(jobs, ids, start, scope, news) && Allowed(op, jobs, start)
    requires forall id :: id in ids ==> id in start
    ensures Grown(Apply(op, jobs), ids, start, scope, news')
  {
    match op
    case CreateJob(job) =>
      IdsAppend(jobs, job);
      SnapIdsAppend(jobs, job, scope, jobs + [job]);
      var own := OwnId(job, scope);
      KeptAgree(ids, IdsOf(jobs), IdsOf(jobs + [job]));
      news' := own + news;
      assert own + (news + Kept(ids, IdsOf(jobs))) == news' + Kept(ids, IdsOf(jobs));
    case UpdateJob(id, f) =>
      UpdateKeepsSnapIds(jobs, id, f, scope);
      SameIds(jobs, Updated(jobs, id, f));
      news' := news;
    case EvictJobs(cutoff) =>
      var k := IdsOf(LiveJobs(jobs, cutoff));
      EvictKeepsSnapIds(jobs, cutoff, scope);
      LiveJobsIds(jobs, cutoff);
      KeptConcat(news, Kept(ids, IdsOf(jobs)), k);
      KeptTwice(ids, IdsOf(jobs), k);
      assert IdsOf(jobs) * k == k;
      news' := Kept(news, k);
      KeptMembers(news, k);
  }

  lemma {:induction false} GrowAll(ops: seq<Op>, jobs: seq<Job>, ids: seq<string>, start: set<string>,
                                   scope: OwnerScope, news: seq<string>)
    returns (news': seq<string>)
    requires Grown(jobs, ids, start, scope, news) && AllAllowed(ops, jobs, start)
    requires forall id :: id in ids ==> id in start
    ensures Grown(ApplyAll(ops, jobs), ids, start, scope, news')
  {
    news' := news;
    if ops != [] {
      news' := GrowStep(ops[0], jobs, ids, start, scope, news);
      news' := GrowAll(ops[1..], Apply(ops[0], jobs), ids, start, scope, news');
    }
  }

  // An evicted job never comes back.
  lemma {:induction false} NoResurrection(ops: seq<Op>, jobs: seq<Job>, start: set<string>)
    requires AllAllowed(ops, jobs, start)
    ensures IdsOf(ApplyAll(ops, jobs)) * start <= IdsOf(jobs)
  {
    if ops != [] {
      NoResurrection(ops[1..], Apply(ops[0], jobs), start);
      match ops[0]
      case CreateJob(job) => IdsAppend(jobs, job);
      case UpdateJob(id, f) => SameIds(jobs, Updated(jobs, id, f));
      case EvictJobs(cutoff) => LiveJobsIds(jobs, cutoff);
    }
  }

  // The first m kept ids come from a prefix that ends in the m-th of them.
  lemma {:induction false} KeptPrefix(ids: seq<string>, k: set<string>, m: nat) returns (q: nat)
    requires 0 < m <= |Kept(ids, k)|
    ensures 0 < q <= |ids| && ids[q - 1] in k && ids[q - 1] == Kept(ids, k)[m - 1]
    ensures Kept(ids[..q], k) == Kept(ids, k)[..m]
  {
    var here := if ids[0] in k then 1 else 0;
    if here == 1 && m == 1 {
      q := 1;
      assert ids[..1][1..] == [];
    } else {
      q := KeptPrefix(ids[1..], k, m - here);
      q := q + 1;
      assert ids[..q][1..] == ids[1..][..q - 1];
    }
  }

  // Where List starts, when the cursor is the last id of a prefix of the snapshot.
  lemma StartFound(snap: seq<Job>, a: seq<string>, cursor: string, b: seq<string>)
    requires IdSeq(snap) == a + [cursor] + b && cursor !in a
    ensures StartAfter(snap, cursor) == |a| + 1
  {
    assert snap[|a|].id == IdSeq(snap)[|a|] == cursor;
    forall i | 0 <= i < |a|
      ensures snap[i].id != cursor
    {
      assert snap[i].id == IdSeq(snap)[i] == a[i];
    }
  }

  lemma {:induction false} DistinctSplit(ids: seq<string>, i: nat)
    requires Distinct(ids) && i < |ids|
    ensures ids[i] !in ids[..i] && ids[i] !in ids[i + 1..]
  {
    if i > 0 {
      DistinctSplit(ids[1..], i - 1);
      assert ids[1..][..i - 1] == ids[1..i] && ids[..i] == [ids[0]] + ids[1..i];
      assert ids[1..][i..] == ids[i + 1..];
    }
  }

  // The ids after the first c.
  function After(ids: seq<string>, c: string): seq<string> {
    if ids == [] then [] else if ids[0] == c then ids[1..] else After(ids[1..], c)
  }

  lemma {:induction false} AfterPosition(ids: seq<string>, pos: nat)
    requires Distinct(ids) && 0 < pos <= |ids|
    ensures After(ids, ids[pos - 1]) == ids[pos..]
  {
    if pos > 1 {
      assert ids[pos - 1] == ids[1..][pos - 2];
      AfterPosition(ids[1..], pos - 1);
      assert ids[1..][pos - 1..] == ids[pos..];
    }
  }

  // The walk stands just after position pos of the ids it started with. When the cursor's job is
  // gone, nothing may be left that is newer.
  ghost predicate StandsAt(cursor: string, pos: nat, ids: seq<string>, jobs: seq<Job>, news: seq<string>) {
    && pos <= |ids|
    && (pos == 0 ==> cursor == "" && news == [])
    && (pos > 0 ==>
          && cursor == ids[pos - 1] && cursor != ""
          && (cursor in IdsOf(jobs) || news + Kept(ids[..pos], IdsOf(jobs)) == []))
  }

  // Kept ids of the two halves of a list without repetitions.
  lemma {:induction false} Halves(ids: seq<string>, pos: nat, k: set<string>)
    requires Distinct(ids) && pos <= |ids|
    ensures Kept(ids, k) == Kept(ids[..pos], k) + Kept(ids[pos..], k)
    ensures forall id :: id in ids[..pos] ==> id !in ids[pos..]
  {
    assert ids == ids[..pos] + ids[pos..];
    KeptConcat(ids[..pos], ids[pos..], k);
    forall id | id in ids[..pos]
      ensures id !in ids[pos..]
    {
      var i :| 0 <= i < pos && ids[i] == id;
      DistinctSplit(ids, i);
      assert forall j :: pos <= j < |ids| ==> ids[j] == ids[i + 1..][j - i - 1];
    }
  }

  // Nothing newer is left exactly when the snapshot holds only what comes after the position.
  lemma {:induction false} NothingNewer(jobs: seq<Job>, ids: seq<string>, start: set<string>, scope: OwnerScope,
                                        news: seq<string>, pos: nat)
    requires Grown(jobs, ids, start, scope, news) && Distinct(ids) && pos <= |ids|
    requires forall id :: id in ids ==> id in start
    ensures (forall id :: id in SnapIds(jobs, scope) ==> id in ids[pos..])
       <==> news + Kept(ids[..pos], IdsOf(jobs)) == []
  {
    hide DistinctIds, SnapIds, IdsOf, Kept, Distinct;
    var k := IdsOf(jobs);
    Halves(ids, pos, k);
    KeptMembers(ids[..pos], k);
    KeptMembers(ids[pos..], k);
    var newer := news + Kept(ids[..pos], k);
    assert SnapIds(jobs, scope) == newer + Kept(ids[pos..], k);
    assert forall id :: id in ids[pos..] ==> id in ids;
    if newer != [] {
      var x := newer[0];
      assert x in news || x in Kept(ids[..pos], k);
      assert x in SnapIds(jobs, scope) && x !in ids[pos..];
    }
  }

  // One page covers the surviving ids from pos to pos'.
  lemma PageStep(snap: seq<Job>, from: nat, ids: seq<string>, pos: nat, k: set<string>, size: int, page: seq<Job>,
                 next: string)
    returns (pos': nat)
    requires size > 0 && (page, next) == Cut(snap, size, from)
    requires from <= |snap| && pos <= |ids| && IdSeq(snap)[from..] == Kept(ids[pos..], k)
    requires forall i :: 0 <= i < |snap| ==> snap[i].id != ""
    ensures pos <= pos' <= |ids|
    ensures IdSeq(page) == Kept(ids[pos..pos'], k)
    ensures next == "" ==> pos' == |ids|
    ensures next != "" ==> pos < pos' && next == ids[pos' - 1]
  {
    pos' := CutRest(snap, from, size, if from + size > |snap| then |snap| else from + size, ids, pos, k);
  }

  lemma NoEmptyId(jobs: seq<Job>, scope: OwnerScope)
    requires "" !in IdsOf(jobs)
    ensures forall i :: 0 <= i < |Snapshot(jobs, scope)| ==> Snapshot(jobs, scope)[i].id != ""
  {
    SnapIdsInIds(jobs, scope);
    forall i | 0 <= i < |Snapshot(jobs, scope)|
      ensures Snapshot(jobs, scope)[i].id != ""
    {
      assert SnapIds(jobs, scope)[i] in SnapIds(jobs, scope);
    }
  }

  // Cutting at most size ids off what is left of the snapshot.
  lemma CutRest(snap: seq<Job>, from: nat, size: int, end: nat, ids: seq<string>, pos: nat, k: set<string>)
    returns (pos': nat)
    requires size > 0 && from <= |snap| && pos <= |ids|
    requires end == if from + size > |snap| then |snap| else from + size
    requires IdSeq(snap)[from..] == Kept(ids[pos..], k)
    ensures pos <= pos' <= |ids|
    ensures IdSeq(snap[from..end]) == Kept(ids[pos..pos'], k)
    ensures end == |snap| ==> pos' == |ids|
    ensures end < |snap| ==> pos < pos' && snap[end - 1].id == ids[pos' - 1]
  {
    var rest := Kept(ids[pos..], k);
    if size >= |rest| {
      pos' := |ids|;
      assert ids[pos..pos'] == ids[pos..] && snap[from..|snap|] == snap[from..] && IdSeq(snap[from..]) == rest;
    } else {
      var q := KeptPrefix(ids[pos..], k, size);
      pos' := pos + q;
      assert ids[pos..pos'] == ids[pos..][..q];
      assert IdSeq(snap[from..from + size]) == rest[..size];
      assert snap[from + size - 1].id == IdSeq(snap)[from..][size - 1];
    }
  }

  lemma StartOfRest(jobs: seq<Job>, ids: seq<string>, start: set<string>, scope: OwnerScope, news: seq<string>,
                    cursor: string, pos: nat)
    returns (from: nat)
    requires Grown(jobs, ids, start, scope, news) && Distinct(ids) && forall id :: id in ids ==> id in start
    requires StandsAt(cursor, pos, ids, jobs, news)
    ensures from == if cursor == "" then 0 else StartAfter(Snapshot(jobs, scope), cursor)
    ensures from <= |Snapshot(jobs, scope)| && SnapIds(jobs, scope)[from..] == Kept(ids[pos..], IdsOf(jobs))
  {
    hide *;
    StandsThere(cursor, pos, ids, jobs, news);
    if pos == 0 {
      from := 0;
      StartAtNewest(jobs, ids, start, scope, news, pos);
    } else if cursor in IdsOf(jobs) {
      from := StartAtCursor(jobs, ids, start, scope, news, pos);
    } else {
      from := 0;
      StartAtNewest(jobs, ids, start, scope, news, pos);
      LostCursorStart(jobs, scope, cursor);
    }
  }

  lemma StandsThere(cursor: string, pos: nat, ids: seq<string>, jobs: seq<Job>, news: seq<string>)
    requires StandsAt(cursor, pos, ids, jobs, news)
    ensures pos <= |ids| && (pos == 0 ==> cursor == "" && news == [])
    ensures pos > 0 ==> cursor == ids[pos - 1] && cursor != ""
    ensures pos > 0 && cursor !in IdsOf(jobs) ==> news + Kept(ids[..pos], IdsOf(jobs)) == []
  {
  }

  // When nothing newer is left, what is left starts the snapshot.
  lemma StartAtNewest(jobs: seq<Job>, ids: seq<string>, start: set<string>, scope: OwnerScope, news: seq<string>,
                      pos: nat)
    requires Grown(jobs, ids, start, scope, news) && Distinct(ids) && pos <= |ids|
    requires if pos == 0 then news == [] else news + Kept(ids[..pos], IdsOf(jobs)) == []
    ensures SnapIds(jobs, scope)[0..] == Kept(ids[pos..], IdsOf(jobs))
  {
    hide DistinctIds, SnapIds, IdsOf;
    var k := IdsOf(jobs);
    Halves(ids, pos, k);
    assert Kept([], k) == [];
    assert news + (Kept(ids[..pos], k) + Kept(ids[pos..], k)) == (news + Kept(ids[..pos], k)) + Kept(ids[pos..], k);
  }

  lemma StartAtCursor(jobs: seq<Job>, ids: seq<string>, start: set<string>, scope: OwnerScope, news: seq<string>,
                      pos: nat)
    returns (from: nat)
    requires Grown(jobs, ids, start, scope, news) && Distinct(ids) && forall id :: id in ids ==> id in start
    requires 0 < pos <= |ids| && ids[pos - 1] in IdsOf(jobs)
    ensures from == StartAfter(Snapshot(jobs, scope), ids[pos - 1])
    ensures from <= |Snapshot(jobs, scope)| && SnapIds(jobs, scope)[from..] == Kept(ids[pos..], IdsOf(jobs))
  {
    hide OwnerScope.ListContains, DistinctIds, Snapshot, StartAfter, Kept, Distinct;
    var k, cursor := IdsOf(jobs), ids[pos - 1];
    var a, b := news + Kept(ids[..pos - 1], k), Kept(ids[pos..], k);
    KeptAround(ids, pos - 1, k);
    assert news + (Kept(ids[..pos - 1], k) + [cursor] + b) == a + [cursor] + b;
    DistinctSplit(ids, pos - 1);
    KeptMembers(ids[..pos - 1], k);
    StartFound(Snapshot(jobs, scope), a, cursor, b);
    from := |a| + 1;
    assert (a + [cursor] + b)[from..] == b;
  }

  // A cursor whose job is gone reads like no cursor.
  lemma LostCursorStart(jobs: seq<Job>, scope: OwnerScope, cursor: string)
    requires cursor !in IdsOf(jobs)
    ensures StartAfter(Snapshot(jobs, scope), cursor) == 0
  {
    hide Snapshot;
    var snap := Snapshot(jobs, scope);
    SnapIdsInIds(jobs, scope);
    forall i | 0 <= i < |snap|
      ensures snap[i].id != cursor
    {
      assert SnapIds(jobs, scope)[i] in SnapIds(jobs, scope);
    }
  }

  // The kept ids before and after a kept one.
  lemma KeptAround(ids: seq<string>, i: nat, k: set<string>)
    requires i < |ids| && ids[i] in k
    ensures Kept(ids, k) == Kept(ids[..i], k) + [ids[i]] + Kept(ids[i + 1..], k)
  {
    assert ids == ids[..i] + ([ids[i]] + ids[i + 1..]);
    KeptConcat(ids[..i], [ids[i]] + ids[i + 1..], k);
    KeptConcat([ids[i]], ids[i + 1..], k);
    assert [ids[i]][1..] == [];
  }

  /** A walk: the i-th List call finds jobs[i] in the store; ops[i] happen after it. */
  datatype Walk = Walk(jobs: seq<seq<Job>>, ops: seq<seq<Op>>, limits: seq<int>,
                       pages: seq<seq<Job>>, cursors: seq<string>)

  ghost predicate IsWalk(w: Walk, scope: OwnerScope) {
    && |w.jobs| == |w.limits| == |w.pages| == |w.ops| >= 1
    && |w.cursors| == |w.pages| + 1 && w.cursors[0] == ""
    && DistinctIds(w.jobs[0]) && "" !in IdsOf(w.jobs[0])
    && (forall i :: 0 <= i < |w.pages| ==>
          (w.pages[i], w.cursors[i + 1]) == Page(Snapshot(w.jobs[i], scope), w.limits[i], w.cursors[i]))
    && (forall i :: 1 <= i < |w.pages| ==> Continues(w, i) && InPlace(w, scope, i))
  }

  // The i-th call finds its cursor's job in the store, or nothing but jobs that come after it.
  ghost predicate InPlace(w: Walk, scope: OwnerScope, i: nat)
    requires i < |w.cursors| && i < |w.jobs|
  {
    || w.cursors[i] in IdsOf(w.jobs[i])
    || forall id :: id in SnapIds(w.jobs[i], scope) ==> id in After(SnapIds(w.jobs[0], scope), w.cursors[i])
  }

  // The i-th call follows a cursor.
  ghost predicate Continues(w: Walk, i: nat)
    requires 1 <= i < |w.cursors| && i < |w.jobs| && |w.ops| == |w.jobs|
  {
    && w.cursors[i] != ""
    && AllAllowed(w.ops[i - 1], w.jobs[i - 1], IdsOf(w.jobs[0]))
    && w.jobs[i] == ApplyAll(w.ops[i - 1], w.jobs[i - 1])
  }

  // The ids of the first n pages, in the order they were served.
  function Served(pages: seq<seq<Job>>, n: nat): seq<string>
    requires n <= |pages|
  {
    if n == 0 then [] else Served(pages, n - 1) + IdSeq(pages[n - 1])
  }

  // After n pages: what was served, up to position pos of the initial ids.
  ghost predicate Covered(w: Walk, scope: OwnerScope, n: nat, pos: nat, served: set<string>, news: seq<string>)
    requires IsWalk(w, scope) && 1 <= n <= |w.pages|
  {
    var ids := SnapIds(w.jobs[0], scope);
    var jobs := w.jobs[n - 1];
    && 0 <= pos <= |ids|
    && Grown(jobs, ids, IdsOf(w.jobs[0]), scope, news)
    && Served(w.pages, n) == Kept(ids[..pos], served)
    && (forall id :: id in ids[..pos] && id in IdsOf(jobs) ==> id in served)
    && (forall id :: id in served ==> id in ids[..pos])
    && (w.cursors[n] == "" ==> pos == |ids|)
    && (w.cursors[n] != "" ==> n <= pos && w.cursors[n] == ids[pos - 1])
  }

  // Where the walk stands when the n-th page is about to be served.
  ghost predicate Ready(w: Walk, scope: OwnerScope, n: nat, pos: nat, served: set<string>, news: seq<string>)
    requires IsWalk(w, scope) && n < |w.pages|
  {
    var ids := SnapIds(w.jobs[0], scope);
    && Grown(w.jobs[n], ids, IdsOf(w.jobs[0]), scope, news)
    && n <= pos && StandsAt(w.cursors[n], pos, ids, w.jobs[n], news)
    && Served(w.pages, n) == Kept(ids[..pos], served)
    && (forall id :: id in ids[..pos] && id in IdsOf(w.jobs[n]) ==> id in served)
    && (forall id :: id in served ==> id in ids[..pos])
  }

  lemma {:induction false} GetReady(w: Walk, scope: OwnerScope, n: nat)
    returns (pos: nat, served: set<string>, news: seq<string>)
    requires IsWalk(w, scope) && n < |w.pages|
    ensures Ready(w, scope, n, pos, served, news)
    decreases n, 0
  {
    hide DistinctIds, Page, Grown, Distinct, After, AllAllowed, ApplyAll;
    if n == 0 {
      pos, served, news := 0, {}, [];
      AtTheStart(w, scope);
    } else {
      assert Continues(w, n) && InPlace(w, scope, n);
      pos, served, news := CoverPages(w, scope, n);
      news := MoveOn(w, scope, n, pos, served, news);
    }
  }

  lemma AtTheStart(w: Walk, scope: OwnerScope)
    requires IsWalk(w, scope)
    ensures Ready(w, scope, 0, 0, {}, [])
  {
    var start, ids := IdsOf(w.jobs[0]), SnapIds(w.jobs[0], scope);
    SnapIdsInIds(w.jobs[0], scope);
    KeptMembers(ids, start);
    assert [] + ids == ids && ids[..0] == [];
  }

  // What happens between two calls leaves a walk ready, if its cursor is in place.
  lemma {:induction false} MoveOn(w: Walk, scope: OwnerScope, n: nat, pos: nat, served: set<string>, news: seq<string>)
    returns (news': seq<string>)
    requires IsWalk(w, scope) && 0 < n < |w.pages| && Covered(w, scope, n, pos, served, news)
    requires Continues(w, n) && InPlace(w, scope, n)
    ensures Ready(w, scope, n, pos, served, news')
  {
    hide DistinctIds, Page, Grown, Distinct, AllAllowed, ApplyAll, SnapIds, IdsOf, Kept, After, StandsAt;
    FirstIds(w, scope);
    news' := MoveOnJobs(w.ops[n - 1], w.jobs[n - 1], SnapIds(w.jobs[0], scope), IdsOf(w.jobs[0]), scope, w.cursors[n],
                        pos, served, news);
  }

  lemma {:induction false} MoveOnJobs(ops: seq<Op>, jobs: seq<Job>, ids: seq<string>, start: set<string>,
                                      scope: OwnerScope, cursor: string, pos: nat, served: set<string>,
                                      news: seq<string>)
    returns (news': seq<string>)
    requires Grown(jobs, ids, start, scope, news) && AllAllowed(ops, jobs, start)
    requires Distinct(ids) && forall id :: id in ids ==> id in start
    requires 0 < pos <= |ids| && cursor == ids[pos - 1] && cursor != ""
    requires forall id :: id in ids[..pos] && id in IdsOf(jobs) ==> id in served
    requires cursor in IdsOf(ApplyAll(ops, jobs))
          || forall id :: id in SnapIds(ApplyAll(ops, jobs), scope) ==> id in After(ids, cursor)
    ensures Grown(ApplyAll(ops, jobs), ids, start, scope, news')
    ensures StandsAt(cursor, pos, ids, ApplyAll(ops, jobs), news')
    ensures forall id :: id in ids[..pos] && id in IdsOf(ApplyAll(ops, jobs)) ==> id in served
  {
    hide DistinctIds, Grown, Distinct, AllAllowed, ApplyAll, SnapIds, IdsOf, Kept, After;
    NoResurrection(ops, jobs, start);
    news' := GrowAll(ops, jobs, ids, start, scope, news);
    AfterPosition(ids, pos);
    NothingNewer(ApplyAll(ops, jobs), ids, start, scope, news', pos);
    assert forall id :: id in ids[..pos] ==> id in ids;
  }

  lemma FirstIds(w: Walk, scope: OwnerScope)
    requires IsWalk(w, scope)
    ensures Distinct(SnapIds(w.jobs[0], scope))
    ensures forall id :: id in SnapIds(w.jobs[0], scope) ==> id in IdsOf(w.jobs[0])
  {
    SnapIdsInIds(w.jobs[0], scope);
  }

  lemma {:induction false} CoverPages(w: Walk, scope: OwnerScope, n: nat)
    returns (pos: nat, served: set<string>, news: seq<string>)
    requires IsWalk(w, scope) && 1 <= n <= |w.pages|
    ensures Covered(w, scope, n, pos, served, news)
    decreases n - 1, 1
  {
    var pos0, served0;
    pos0, served0, news := GetReady(w, scope, n - 1);
    pos, served := ServePage(w, scope, n - 1, pos0, served0, news);
  }

  lemma ServePage(w: Walk, scope: OwnerScope, n: nat, pos0: nat, served0: set<string>, news: seq<string>)
    returns (pos: nat, served: set<string>)
    requires IsWalk(w, scope) && n < |w.pages| && Ready(w, scope, n, pos0, served0, news)
    ensures Covered(w, scope, n + 1, pos, served, news)
  {
    SnapIdsInIds(w.jobs[0], scope);
    pos := ServeJobs(w.jobs[n], SnapIds(w.jobs[0], scope), IdsOf(w.jobs[0]), scope, news,
                     w.limits[n], w.cursors[n], pos0, w.pages[n], w.cursors[n + 1]);
    served := Extend(SnapIds(w.jobs[0], scope), pos0, pos, served0, IdsOf(w.jobs[n]));
  }

  lemma {:induction false} ServeJobs(jobs: seq<Job>, ids: seq<string>, start: set<string>, scope: OwnerScope,
                                     news: seq<string>, limit: int, cursor: string, pos: nat, page: seq<Job>,
                                     next: string)
    returns (pos': nat)
    requires Grown(jobs, ids, start, scope, news) && Distinct(ids) && forall id :: id in ids ==> id in start
    requires StandsAt(cursor, pos, ids, jobs, news)
    requires (page, next) == Page(Snapshot(jobs, scope), limit, cursor)
    ensures pos <= pos' <= |ids|
    ensures IdSeq(page) == Kept(ids[pos..pos'], IdsOf(jobs))
    ensures next == "" ==> pos' == |ids|
    ensures next != "" ==> pos < pos' && next == ids[pos' - 1]
  {
    var from := StartOfRest(jobs, ids, start, scope, news, cursor, pos);
    NoEmptyId(jobs, scope);
    pos' := PageStep(Snapshot(jobs, scope), from, ids, pos, IdsOf(jobs), if limit <= 0 then 20 else limit, page, next);
  }

  // The ids served so far, with those of one more page.
  lemma Extend(ids: seq<string>, pos0: nat, pos: nat, served0: set<string>, k: set<string>)
    returns (served: set<string>)
    requires Distinct(ids) && pos0 <= pos <= |ids|
    requires forall id :: id in served0 ==> id in ids[..pos0]
    ensures Kept(ids[..pos], served) == Kept(ids[..pos0], served0) + Kept(ids[pos0..pos], k)
    ensures ids[..pos] == ids[..pos0] + ids[pos0..pos]
    ensures forall id :: id in served <==> id in served0 || (id in ids[pos0..pos] && id in k)
    ensures forall id :: id in served ==> id in ids[..pos]
  {
    served := served0 + set id | id in ids[pos0..pos] && id in k;
    forall id | id in ids[..pos0]
      ensures id !in ids[pos0..pos]
    {
      var i :| 0 <= i < pos0 && ids[i] == id;
      DistinctSplit(ids, i);
      assert forall j :: pos0 <= j < pos ==> ids[j] == ids[i + 1..][j - i - 1];
    }
    assert ids[..pos] == ids[..pos0] + ids[pos0..pos];
    KeptConcat(ids[..pos0], ids[pos0..pos], served);
    KeptAgree(ids[..pos0], served, served0);
    KeptAgree(ids[pos0..pos], served, k);
  }

  /**
   A walk that has ended served, in newest-first order and once each, jobs the scope had at
   the first call; it missed none of those that are still in the store.
   */
  lemma WalkIsComplete(w: Walk, scope: OwnerScope) returns (served: set<string>)
    requires IsWalk(w, scope) && w.cursors[|w.pages|] == ""
    ensures Served(w.pages, |w.pages|) == Kept(SnapIds(w.jobs[0], scope), served)
    ensures Distinct(SnapIds(w.jobs[0], scope))
    ensures forall id :: id in SnapIds(w.jobs[0], scope) && id in IdsOf(w.jobs[|w.jobs| - 1]) ==> id in served
  {
    var pos, news;
    pos, served, news := CoverPages(w, scope, |w.pages|);
    var ids := SnapIds(w.jobs[0], scope);
    assert ids[..|ids|] == ids;
    SnapIdsInIds(w.jobs[0], scope);
  }

  // Without evictions of listed jobs the pages are exactly the jobs present at the first call.
  lemma WalkIsExact(w: Walk, scope: OwnerScope)
    requires IsWalk(w, scope) && w.cursors[|w.pages|] == ""
    requires forall id :: id in SnapIds(w.jobs[0], scope) ==> id in IdsOf(w.jobs[|w.jobs| - 1])
    ensures Served(w.pages, |w.pages|) == SnapIds(w.jobs[0], scope)
  {
    var served := WalkIsComplete(w, scope);
    KeptMembers(SnapIds(w.jobs[0], scope), served);
  }

  // A walk needs at most one call per job present at the first one, plus one.
  lemma WalkTerminates(w: Walk, scope: OwnerScope)
    requires IsWalk(w, scope)
    ensures |w.pages| <= |SnapIds(w.jobs[0], scope)| + 1
  {
    if |w.pages| > 1 {
      var n := |w.pages| - 1;
      assert Continues(w, n);
      var pos, served, news := CoverPages(w, scope, n);
    }
  }
}
