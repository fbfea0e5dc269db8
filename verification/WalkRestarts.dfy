/**
 Following List's cursors when the job a cursor names may be evicted before the next call
 (internal/jobstore/store.go): List then starts again from the newest job. Nothing that stays
 in the store is missed; jobs are served once exactly when no such call finds newer jobs.
 */
module WalkRestarts {
  import opened Jobs
  import opened JobWalk

  // The ids found by the first n calls.
  function SeenIds(jobs: seq<seq<Job>>, n: nat): set<string>
    requires n <= |jobs|
  {
    if n == 0 then {} else SeenIds(jobs, n - 1) + IdsOf(jobs[n - 1])
  }

  // A walk like JobWalk's, but a cursor may outlive its job. Ids are random: none is drawn twice.
  ghost predicate IsAnyWalk(w: Walk, scope: OwnerScope) {
    && |w.jobs| == |w.limits| == |w.pages| == |w.ops| >= 1
    && |w.cursors| == |w.pages| + 1 && w.cursors[0] == ""
    && DistinctIds(w.jobs[0]) && "" !in IdsOf(w.jobs[0])
    && (forall i :: 0 <= i < |w.pages| ==>
          (w.pages[i], w.cursors[i + 1]) == Page(Snapshot(w.jobs[i], scope), w.limits[i], w.cursors[i]))
    && (forall i :: 1 <= i < |w.pages| ==> GoesOn(w, i))
  }

  ghost predicate GoesOn(w: Walk, i: nat)
    requires 1 <= i < |w.cursors| && i < |w.jobs| && |w.ops| == |w.jobs|
  {
    && w.cursors[i] != ""
    && AllAllowed(w.ops[i - 1], w.jobs[i - 1], SeenIds(w.jobs, i))
    && w.jobs[i] == ApplyAll(w.ops[i - 1], w.jobs[i - 1])
  }

  // Whether the cursor's job is gone at call i, which then starts again.
  predicate Restarts(w: Walk, i: nat)
    requires i < |w.cursors| && i < |w.jobs|
  {
    w.cursors[i] !in IdsOf(w.jobs[i])
  }

  lemma {:induction false} SeenIncludes(jobs: seq<seq<Job>>, i: nat, n: nat)
    requires i < n <= |jobs|
    ensures IdsOf(jobs[i]) <= SeenIds(jobs, n)
  {
    if i < n - 1 {
      SeenIncludes(jobs, i, n - 1);
    }
  }

  lemma {:induction false} AllowedForFewer(ops: seq<Op>, jobs: seq<Job>, start: set<string>, fewer: set<string>)
    requires AllAllowed(ops, jobs, start) && fewer <= start
    ensures AllAllowed(ops, jobs, fewer)
  {
    if ops != [] {
      AllowedForFewer(ops[1..], Apply(ops[0], jobs), start, fewer);
    }
  }

  // From any call on, the store's ids are new ones before the surviving ones of that call.
  lemma {:induction false} GrownFrom(w: Walk, scope: OwnerScope, r: nat, n: nat) returns (news: seq<string>)
    requires IsAnyWalk(w, scope) && r <= n < |w.jobs|
    requires DistinctIds(w.jobs[r]) && "" !in IdsOf(w.jobs[r])
    ensures Grown(w.jobs[n], SnapIds(w.jobs[r], scope), IdsOf(w.jobs[r]), scope, news)
    decreases n
  {
    hide DistinctIds, Page;
    var ids, start := SnapIds(w.jobs[r], scope), IdsOf(w.jobs[r]);
    SnapIdsInIds(w.jobs[r], scope);
    if n == r {
      news := [];
      KeptMembers(ids, start);
      assert [] + ids == ids;
    } else {
      news := GrownFrom(w, scope, r, n - 1);
      assert GoesOn(w, n);
      SeenIncludes(w.jobs, r, n);
      AllowedForFewer(w.ops[n - 1], w.jobs[n - 1], SeenIds(w.jobs, n), start);
      news := GrowAll(w.ops[n - 1], w.jobs[n - 1], ids, start, scope, news);
    }
  }

  // A job of the first call that is stored at a later one was stored at every call before.
  lemma {:induction false} StaysGone(w: Walk, scope: OwnerScope, r: nat, n: nat)
    requires IsAnyWalk(w, scope) && r <= n < |w.jobs|
    ensures IdsOf(w.jobs[n]) * IdsOf(w.jobs[0]) <= IdsOf(w.jobs[r])
    decreases n
  {
    hide *;
    if r < n {
      StaysGone(w, scope, r, n - 1);
      StaysGoneOnce(w, scope, n);
    }
  }

  lemma StaysGoneOnce(w: Walk, scope: OwnerScope, n: nat)
    requires IsAnyWalk(w, scope) && 0 < n < |w.jobs|
    ensures IdsOf(w.jobs[n]) * IdsOf(w.jobs[0]) <= IdsOf(w.jobs[n - 1])
  {
    hide DistinctIds, Page, Snapshot, IdsOf, AllAllowed, ApplyAll;
    assert GoesOn(w, n);
    SeenIncludes(w.jobs, 0, n);
    AllowedForFewer(w.ops[n - 1], w.jobs[n - 1], SeenIds(w.jobs, n), IdsOf(w.jobs[0]));
    NoResurrection(w.ops[n - 1], w.jobs[n - 1], IdsOf(w.jobs[0]));
  }

  // The last call, up to n, that starts from the newest job.
  function LastStart(w: Walk, n: nat): (r: nat)
    requires n < |w.cursors| && n < |w.jobs|
    ensures r <= n
  {
    if n == 0 || Restarts(w, n) then n else LastStart(w, n - 1)
  }

  lemma {:induction false} LastStartIs(w: Walk, n: nat)
    requires n < |w.cursors| && n < |w.jobs|
    ensures var r := LastStart(w, n);
            (r == 0 || Restarts(w, r)) && forall i :: r < i <= n ==> !Restarts(w, i)
  {
    if n > 0 && !Restarts(w, n) {
      LastStartIs(w, n - 1);
    }
  }

  // A cursor whose job is gone reads like no cursor.
  lemma LostCursor(jobs: seq<Job>, scope: OwnerScope, limit: int, cursor: string)
    requires cursor !in IdsOf(jobs)
    ensures Page(Snapshot(jobs, scope), limit, cursor) == Page(Snapshot(jobs, scope), limit, "")
  {
    hide Snapshot;
    var snap := Snapshot(jobs, scope);
    SnapIdsInIds(jobs, scope);
    forall i | 0 <= i < |snap|
      ensures snap[i].id != cursor
    {
      assert SnapIds(jobs, scope)[i] in SnapIds(jobs, scope);
    }
  }

  // The part of a walk from a call on that starts from the newest job.
  ghost function From(w: Walk, r: nat): Walk
    requires r < |w.pages| == |w.jobs| == |w.ops| == |w.limits| && |w.cursors| == |w.pages| + 1
  {
    Walk(w.jobs[r..], w.ops[r..], w.limits[r..], w.pages[r..], [""] + w.cursors[r + 1..])
  }

  // From its last restart on, a walk is one whose cursors' jobs are stored.
  lemma {:induction false} FromLastStart(w: Walk, scope: OwnerScope, r: nat)
    requires IsAnyWalk(w, scope) && r < |w.pages| && (r == 0 || Restarts(w, r))
    requires forall i :: r < i < |w.pages| ==> !Restarts(w, i)
    requires DistinctIds(w.jobs[r]) && "" !in IdsOf(w.jobs[r])
    ensures IsWalk(From(w, r), scope)
  {
    hide DistinctIds, Page, AllAllowed, ApplyAll, Snapshot, SnapIds, After, IdsOf;
    var v := From(w, r);
    LostCursor(w.jobs[r], scope, w.limits[r], if r == 0 then "" else w.cursors[r]);
    forall i | 1 <= i < |v.pages|
      ensures Continues(v, i) && InPlace(v, scope, i)
    {
      assert GoesOn(w, r + i) && !Restarts(w, r + i);
      SeenIncludes(w.jobs, r, r + i);
      AllowedForFewer(w.ops[r + i - 1], w.jobs[r + i - 1], SeenIds(w.jobs, r + i), IdsOf(w.jobs[r]));
    }
    forall i | 0 <= i < |v.pages|
      ensures (v.pages[i], v.cursors[i + 1]) == Page(Snapshot(v.jobs[i], scope), v.limits[i], v.cursors[i])
    {
      assert (w.pages[r + i], w.cursors[r + i + 1])
             == Page(Snapshot(w.jobs[r + i], scope), w.limits[r + i], w.cursors[r + i]);
    }
  }

  ghost predicate OnSomePage(pages: seq<seq<Job>>, id: string) {
    exists i, k :: 0 <= i < |pages| && 0 <= k < |pages[i]| && pages[i][k].id == id
  }

  lemma {:induction false} ServedIsOnPage(pages: seq<seq<Job>>, n: nat, id: string)
    requires n <= |pages| && id in Served(pages, n)
    ensures OnSomePage(pages, id)
  {
    if id in IdSeq(pages[n - 1]) {
      var k :| 0 <= k < |pages[n - 1]| && IdSeq(pages[n - 1])[k] == id;
      assert pages[n - 1][k].id == id;
    } else {
      ServedIsOnPage(pages, n - 1, id);
    }
  }

  /**
   A walk that has ended misses no job that the scope had at the first call and that is still in
   the store, whatever was evicted in between, the jobs that the cursors name included.
   */
  lemma {:induction false} AnyWalkIsComplete(w: Walk, scope: OwnerScope, id: string)
    requires IsAnyWalk(w, scope) && w.cursors[|w.pages|] == ""
    requires id in SnapIds(w.jobs[0], scope) && id in IdsOf(w.jobs[|w.jobs| - 1])
    ensures OnSomePage(w.pages, id)
  {
    hide *;
    Shapes(w, scope);
    var last := |w.pages| - 1;
    var r := LastStart(w, last);
    FromShape(w, r);
    LastStartIs(w, last);
    StaysGone(w, scope, r, last);
    InFirst(w, scope, id);
    var news := GrownFrom(w, scope, 0, r);
    InSnapshot(w.jobs[r], SnapIds(w.jobs[0], scope), IdsOf(w.jobs[0]), scope, news, id);
    FromLastStart(w, scope, r);
    CompleteFrom(From(w, r), scope, id);
    LaterPage(w.pages, r, id);
  }

  lemma Shapes(w: Walk, scope: OwnerScope)
    requires IsAnyWalk(w, scope)
    ensures |w.jobs| == |w.limits| == |w.pages| == |w.ops| >= 1 && |w.cursors| == |w.pages| + 1
    ensures DistinctIds(w.jobs[0]) && "" !in IdsOf(w.jobs[0])
  {
    hide DistinctIds, Page, Snapshot;
  }

  lemma FromShape(w: Walk, r: nat)
    requires r < |w.pages| == |w.jobs| == |w.ops| == |w.limits| && |w.cursors| == |w.pages| + 1
    ensures var v := From(w, r);
            && |v.pages| == |v.jobs| == |w.pages| - r && |v.cursors| == |v.pages| + 1
            && v.pages == w.pages[r..] && v.jobs[0] == w.jobs[r] && v.jobs[|v.jobs| - 1] == w.jobs[|w.jobs| - 1]
            && v.cursors[|v.pages|] == w.cursors[|w.pages|]
  {
  }

  lemma InFirst(w: Walk, scope: OwnerScope, id: string)
    requires |w.jobs| > 0 && id in SnapIds(w.jobs[0], scope)
    ensures id in IdsOf(w.jobs[0])
  {
    SnapIdsInIds(w.jobs[0], scope);
  }

  lemma {:induction false} CompleteFrom(v: Walk, scope: OwnerScope, id: string)
    requires IsWalk(v, scope) && v.cursors[|v.pages|] == ""
    requires id in SnapIds(v.jobs[0], scope) && id in IdsOf(v.jobs[|v.jobs| - 1])
    ensures OnSomePage(v.pages, id)
  {
    hide DistinctIds, Page, Snapshot;
    var served := WalkIsComplete(v, scope);
    KeptMembers(SnapIds(v.jobs[0], scope), served);
    ServedIsOnPage(v.pages, |v.pages|, id);
  }

  lemma LaterPage(pages: seq<seq<Job>>, r: nat, id: string)
    requires r <= |pages| && OnSomePage(pages[r..], id)
    ensures OnSomePage(pages, id)
  {
    var i, k :| 0 <= i < |pages[r..]| && 0 <= k < |pages[r..][i]| && pages[r..][i][k].id == id;
    assert pages[r + i][k].id == id;
  }

  // A surviving id of the first call is still in the scope's snapshot.
  lemma InSnapshot(jobs: seq<Job>, ids: seq<string>, start: set<string>, scope: OwnerScope, news: seq<string>,
                   id: string)
    requires Grown(jobs, ids, start, scope, news) && id in ids && id in IdsOf(jobs)
    ensures id in SnapIds(jobs, scope) && DistinctIds(jobs) && "" !in IdsOf(jobs)
  {
    hide DistinctIds;
    KeptMembers(ids, IdsOf(jobs));
  }

  // What a call with a lost cursor serves first is what the store has newest.
  lemma RestartedPage(jobs: seq<Job>, scope: OwnerScope, limit: int, cursor: string, page: seq<Job>, next: string)
    requires cursor !in IdsOf(jobs) && (page, next) == Page(Snapshot(jobs, scope), limit, cursor)
    ensures SnapIds(jobs, scope) != [] ==> page != [] && page[0].id == SnapIds(jobs, scope)[0]
  {
    hide Snapshot;
    LostCursor(jobs, scope, limit, cursor);
  }

  /**
   One call goes on after its cursor exactly when the cursor's job is stored or nothing newer is
   left; otherwise it serves something newer.
   */
  lemma {:induction false} PageGoesOnExactly(jobs: seq<Job>, ids: seq<string>, start: set<string>,
                                             scope: OwnerScope, news: seq<string>, limit: int, cursor: string,
                                             pos: nat, page: seq<Job>, next: string)
    requires Grown(jobs, ids, start, scope, news) && Distinct(ids) && forall id :: id in ids ==> id in start
    requires 0 < pos <= |ids| && cursor == ids[pos - 1] && cursor != ""
    requires (page, next) == Page(Snapshot(jobs, scope), limit, cursor)
    ensures (forall id :: id in IdSeq(page) ==> id in ids[pos..])
       <==> cursor in IdsOf(jobs) || news + Kept(ids[..pos], IdsOf(jobs)) == []
  {
    hide DistinctIds, Grown, Snapshot, Page, Kept, Distinct, SnapIds;
    if cursor in IdsOf(jobs) || news + Kept(ids[..pos], IdsOf(jobs)) == [] {
      var pos' := ServeJobs(jobs, ids, start, scope, news, limit, cursor, pos, page, next);
      KeptMembers(ids[pos..pos'], IdsOf(jobs));
      assert forall id :: id in ids[pos..pos'] ==> id in ids[pos..];
    } else {
      var x := NewestIsNewer(jobs, ids, start, scope, news, pos);
      RestartedPage(jobs, scope, limit, cursor, page, next);
      assert IdSeq(page)[0] == x;
    }
  }

  // The newest job, when something newer than the position is left.
  lemma {:induction false} NewestIsNewer(jobs: seq<Job>, ids: seq<string>, start: set<string>, scope: OwnerScope,
                                         news: seq<string>, pos: nat)
    returns (x: string)
    requires Grown(jobs, ids, start, scope, news) && Distinct(ids) && forall id :: id in ids ==> id in start
    requires pos <= |ids| && news + Kept(ids[..pos], IdsOf(jobs)) != []
    ensures SnapIds(jobs, scope) != [] && SnapIds(jobs, scope)[0] == x && x !in ids[pos..]
    ensures x !in ids || (x in ids[..pos] && x in IdsOf(jobs))
  {
    hide DistinctIds, Kept, Distinct, SnapIds, IdsOf;
    var k := IdsOf(jobs);
    Halves(ids, pos, k);
    KeptMembers(ids[..pos], k);
    var newer := news + Kept(ids[..pos], k);
    x := newer[0];
    assert SnapIds(jobs, scope) == newer + Kept(ids[pos..], k);
    assert x in news || x in Kept(ids[..pos], k);
    assert forall id :: id in ids[pos..] ==> id in ids;
  }

  // In the order of the first call's listing, and at most once each.
  ghost predicate ServedOnce(w: Walk, scope: OwnerScope)
    requires IsAnyWalk(w, scope)
  {
    exists served :: Served(w.pages, |w.pages|) == Kept(SnapIds(w.jobs[0], scope), served)
  }

  lemma {:induction false} KeptDistinct(ids: seq<string>, k: set<string>)
    requires Distinct(ids)
    ensures Distinct(Kept(ids, k))
  {
    if ids != [] {
      KeptDistinct(ids[1..], k);
      KeptMembers(ids[1..], k);
      var rest := Kept(ids[1..], k);
      assert ([ids[0]] + rest)[1..] == rest && [] + rest == rest;
    }
  }

  lemma {:induction false} DistinctApart(a: seq<string>, b: seq<string>)
    requires Distinct(a + b)
    ensures forall id :: id in a ==> id !in b
  {
    Halves(a + b, |a|, {});
    assert (a + b)[..|a|] == a && (a + b)[|a|..] == b;
  }

  // What is served by the first n pages, and by those after them.
  lemma {:induction false} ServedMore(pages: seq<seq<Job>>, n: nat, m: nat) returns (rest: seq<string>)
    requires n < m <= |pages|
    ensures Served(pages, m) == Served(pages, n) + (IdSeq(pages[n]) + rest)
  {
    if m == n + 1 {
      rest := [];
    } else {
      rest := ServedMore(pages, n, m - 1);
      var last := IdSeq(pages[m - 1]);
      assert (Served(pages, n) + (IdSeq(pages[n]) + rest)) + last
             == Served(pages, n) + (IdSeq(pages[n]) + (rest + last));
      rest := rest + last;
    }
  }

  // The first n calls of a walk.
  ghost function Prefix(w: Walk, n: nat): Walk
    requires n <= |w.pages| == |w.jobs| == |w.ops| == |w.limits| && |w.cursors| == |w.pages| + 1
  {
    Walk(w.jobs[..n], w.ops[..n], w.limits[..n], w.pages[..n], w.cursors[..n + 1])
  }

  lemma {:induction false} ServedPrefix(pages: seq<seq<Job>>, n: nat, m: nat)
    requires n <= m <= |pages|
    ensures Served(pages[..m], n) == Served(pages, n)
  {
    if n > 0 {
      ServedPrefix(pages, n - 1, m);
    }
  }

  // As long as every cursor is in place, a walk is one of JobWalk's.
  lemma {:induction false} PrefixInPlace(w: Walk, scope: OwnerScope, n: nat)
    requires IsAnyWalk(w, scope) && 1 <= n <= |w.pages|
    requires forall i :: 1 <= i < n ==> InPlace(w, scope, i)
    ensures IsWalk(Prefix(w, n), scope)
  {
    hide DistinctIds, Page, AllAllowed, ApplyAll, Snapshot, After, SnapIds;
    var v := Prefix(w, n);
    forall i | 1 <= i < |v.pages|
      ensures Continues(v, i) && InPlace(v, scope, i)
    {
      assert GoesOn(w, i) && InPlace(w, scope, i);
      SeenIncludes(w.jobs, 0, i);
      AllowedForFewer(w.ops[i - 1], w.jobs[i - 1], SeenIds(w.jobs, i), IdsOf(w.jobs[0]));
    }
    forall i | 0 <= i < |v.pages|
      ensures (v.pages[i], v.cursors[i + 1]) == Page(Snapshot(v.jobs[i], scope), v.limits[i], v.cursors[i])
    {
      assert (w.pages[i], w.cursors[i + 1]) == Page(Snapshot(w.jobs[i], scope), w.limits[i], w.cursors[i]);
    }
  }

  // A walk whose cursors are all in place serves jobs of the first call, once each.
  lemma {:induction false} InPlaceServesOnce(w: Walk, scope: OwnerScope)
    requires IsAnyWalk(w, scope) && forall i :: 1 <= i < |w.pages| ==> InPlace(w, scope, i)
    ensures ServedOnce(w, scope)
  {
    hide DistinctIds, Page, AllAllowed, ApplyAll, Snapshot, After, SnapIds, Grown, Kept, Served, InPlace;
    var n := |w.pages|;
    PrefixInPlace(w, scope, n);
    var v := Prefix(w, n);
    assert v.pages == w.pages && v.jobs[0] == w.jobs[0];
    var pos, served, news := CoverPages(v, scope, n);
    FirstIds(v, scope);
    AllKept(SnapIds(w.jobs[0], scope), pos, served);
    assert Served(w.pages, n) == Kept(SnapIds(w.jobs[0], scope), served);
  }

  lemma {:induction false} AllKept(ids: seq<string>, pos: nat, served: set<string>)
    requires Distinct(ids) && pos <= |ids| && forall id :: id in served ==> id in ids[..pos]
    ensures Kept(ids[..pos], served) == Kept(ids, served)
  {
    hide Kept, Distinct;
    Halves(ids, pos, served);
    NoneKept(ids[pos..], served);
  }

  lemma {:induction false} NoneKept(ids: seq<string>, k: set<string>)
    requires forall id :: id in ids ==> id !in k
    ensures Kept(ids, k) == []
  {
    if ids != [] {
      NoneKept(ids[1..], k);
    }
  }

  // The first cursor that is not in place makes the walk serve something twice, or something new.
  lemma {:induction false} OutOfPlaceServesAgain(w: Walk, scope: OwnerScope, n: nat)
    requires IsAnyWalk(w, scope) && 1 <= n < |w.pages| && !InPlace(w, scope, n)
    requires forall i :: 1 <= i < n ==> InPlace(w, scope, i)
    ensures !ServedOnce(w, scope)
  {
    hide DistinctIds, Page, AllAllowed, ApplyAll, Snapshot, After, SnapIds, Grown, Kept, Served, Distinct;
    hide InPlace, IdsOf;
    var ids := SnapIds(w.jobs[0], scope);
    var x := ServedBefore(w, scope, n);
    FirstSnapIds(w, scope);
    var rest := ServedMore(w.pages, n, |w.pages|);
    forall served
      ensures Served(w.pages, |w.pages|) != Kept(ids, served)
    {
      ServedTwice(Served(w.pages, n), IdSeq(w.pages[n]) + rest, x, ids, served);
    }
  }

  // A list with a repetition, or with something else, is none of kept ids.
  lemma {:induction false} ServedTwice(a: seq<string>, b: seq<string>, x: string, ids: seq<string>, served: set<string>)
    requires Distinct(ids) && x in b && (x !in ids || x in a)
    ensures a + b != Kept(ids, served)
  {
    hide Kept, Distinct;
    KeptDistinct(ids, served);
    KeptMembers(ids, served);
    if Distinct(a + b) {
      DistinctApart(a, b);
    }
    assert x in a + b;
  }

  lemma FirstSnapIds(w: Walk, scope: OwnerScope)
    requires IsAnyWalk(w, scope)
    ensures Distinct(SnapIds(w.jobs[0], scope))
    ensures forall id :: id in SnapIds(w.jobs[0], scope) ==> id in IdsOf(w.jobs[0])
  {
    SnapIdsInIds(w.jobs[0], scope);
  }

  // What the first call with a lost cursor serves is no job of the first call, or one served before.
  lemma {:induction false} ServedBefore(w: Walk, scope: OwnerScope, n: nat) returns (x: string)
    requires IsAnyWalk(w, scope) && 1 <= n < |w.pages| && !InPlace(w, scope, n)
    requires forall i :: 1 <= i < n ==> InPlace(w, scope, i)
    ensures x in IdSeq(w.pages[n])
    ensures x !in SnapIds(w.jobs[0], scope) || x in Served(w.pages, n)
  {
    hide DistinctIds, Page, AllAllowed, ApplyAll, Snapshot, After, SnapIds, Grown, Kept, Served, Distinct, IdsOf;
    var ids, start := SnapIds(w.jobs[0], scope), IdsOf(w.jobs[0]);
    PrefixInPlace(w, scope, n);
    var v := Prefix(w, n);
    var pos, served, news0 := CoverPages(v, scope, n);
    FirstSnapIds(w, scope);
    assert GoesOn(w, n);
    assert v.jobs[0] == w.jobs[0] && v.jobs[n - 1] == w.jobs[n - 1] && v.cursors[n] == w.cursors[n];
    var news := GrownFrom(w, scope, 0, n);
    AfterPosition(ids, pos);
    NothingNewer(w.jobs[n], ids, start, scope, news, pos);
    x := NewestIsNewer(w.jobs[n], ids, start, scope, news, pos);
    RestartedPage(w.jobs[n], scope, w.limits[n], w.cursors[n], w.pages[n], w.cursors[n + 1]);
    assert IdSeq(w.pages[n])[0] == x;
    StaysGone(w, scope, n - 1, n);
    ServedPrefix(w.pages, n, n);
    KeptMembers(ids[..pos], served);
  }

  /**
   A walk serves jobs of its first call only, in their order and once each, exactly when every
   call finds its cursor's job in the store or nothing but jobs that come after it.
   */
  lemma {:induction false} ServedOnceExactly(w: Walk, scope: OwnerScope)
    requires IsAnyWalk(w, scope)
    ensures ServedOnce(w, scope) <==> forall i :: 1 <= i < |w.pages| ==> InPlace(w, scope, i)
  {
    hide IsAnyWalk, InPlace, ServedOnce;
    Shapes(w, scope);
    var n := FirstOutOfPlace(w, scope, 1);
    if n == |w.pages| {
      InPlaceServesOnce(w, scope);
    } else {
      OutOfPlaceServesAgain(w, scope, n);
    }
  }

  lemma {:induction false} FirstOutOfPlace(w: Walk, scope: OwnerScope, from: nat) returns (n: nat)
    requires |w.pages| == |w.jobs| && |w.cursors| == |w.pages| + 1 && from <= |w.pages|
    ensures from <= n <= |w.pages| && (n < |w.pages| ==> !InPlace(w, scope, n))
    ensures forall i :: from <= i < n ==> InPlace(w, scope, i)
    decreases |w.pages| - from
  {
    hide InPlace;
    if from == |w.pages| || !InPlace(w, scope, from) {
      n := from;
    } else {
      n := FirstOutOfPlace(w, scope, from + 1);
    }
  }
}
