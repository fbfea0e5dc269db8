/**
 Walks over the job list that start again because their cursors' jobs have been evicted: one that
 serves a job twice, and some of any length (internal/jobstore/store.go).
 */
module WalkExamples {
  import opened Jobs
  import opened JobWalk
  import opened WalkRestarts

  function Sample(id: string, createdAt: int): Job {
    Job(id, "", "", "", "", "", Queued, "", "", [], 0, "", "", ZERO_TIME, createdAt, ZERO_TIME, ZERO_TIME, "", "")
  }

  /** A job can be served twice: the job that a cursor names is evicted before the next call. */
  lemma {:induction false} RestartServesAgain() returns (w: Walk, scope: OwnerScope)
    ensures IsAnyWalk(w, scope) && w.cursors[|w.pages|] == ""
    ensures Served(w.pages, |w.pages|) == ["c", "b", "c"]
  {
    scope := OwnerScope("", "");
    var a, b, c := Sample("a", 1), Sample("b", 2), Sample("c", 3);
    w := Walk([[a, b, c], [c]], [[EvictJobs(2)], []], [2, 2], [[c, b], [c]], ["", "b", ""]);
    SampleStore(a, b, c, scope);
    hide OwnerScope.ListContains, Snapshot, LiveJobs, IdsOf, DistinctIds;
    SamplePages(a, b, c);
    hide Page;
    assert Apply(EvictJobs(2), [a, b, c]) == [c];
    assert [EvictJobs(2)][1..] == [];
    assert AllAllowed([EvictJobs(2)], [a, b, c], SeenIds(w.jobs, 1)) && ApplyAll([EvictJobs(2)], [a, b, c]) == [c];
    assert GoesOn(w, 1);
    assert Served(w.pages, 1) == Served(w.pages, 0) + IdSeq([c, b]) && IdSeq([c, b]) == ["c", "b"]
           && IdSeq([c]) == ["c"];
  }

  // What three jobs look like to a reader, and what an eviction leaves of them.
  lemma SampleStore(a: Job, b: Job, c: Job, scope: OwnerScope)
    requires a == Sample("a", 1) && b == Sample("b", 2) && c == Sample("c", 3) && scope == OwnerScope("", "")
    ensures Snapshot([a, b, c], scope) == [c, b, a] && Snapshot([c], scope) == [c]
    ensures IdsOf([a, b, c]) == {"a", "b", "c"} && DistinctIds([a, b, c])
    ensures LiveJobs([a, b, c], 2) == [c]
  {
    hide *;
    var none: seq<Job> := [];
    assert none + [a] == [a] && [a] + [b] == [a, b] && [a, b] + [c] == [a, b, c] && none + [c] == [c];
    EmptyStore(scope);
    SampleAppend(none, "a", 1, scope);
    SampleAppend([a], "b", 2, scope);
    SampleAppend([a, b], "c", 3, scope);
    SampleAppend(none, "c", 3, scope);
  }

  lemma EmptyStore(scope: OwnerScope)
    ensures Snapshot([], scope) == [] && IdsOf([]) == {} && DistinctIds([]) && LiveJobs([], 2) == []
  {
  }

  lemma SampleAppend(jobs: seq<Job>, id: string, at: int, scope: OwnerScope)
    requires scope == OwnerScope("", "")
    ensures var after := jobs + [Sample(id, at)];
            && Snapshot(after, scope) == [Sample(id, at)] + Snapshot(jobs, scope)
            && IdsOf(after) == IdsOf(jobs) + {id}
            && (DistinctIds(after) <==> DistinctIds(jobs) && id !in IdsOf(jobs))
            && LiveJobs(after, 2) == LiveJobs(jobs, 2) + if at > 2 then [Sample(id, at)] else []
  {
    assert (jobs + [Sample(id, at)])[..|jobs|] == jobs;
  }

  lemma SamplePages(a: Job, b: Job, c: Job)
    requires b.id == "b" && c.id == "c"
    ensures Page([c, b, a], 2, "") == ([c, b], "b") && Page([c], 2, "b") == ([c], "")
  {
    assert [c, b, a][0..2] == [c, b] && [c][0..1] == [c];
    assert StartAfter([c], "b") == 0;
  }

  // The k-th job of an endless story, and the two that the i-th call finds.
  function Nth(k: nat): Job {
    Sample(seq(k + 1, _ => 'a'), k + 1)
  }

  function Pair(i: nat): seq<Job> {
    [Nth(2 * i), Nth(2 * i + 1)]
  }

  lemma NthIsNamed()
    ensures forall k: nat :: Nth(k).id != "" && |Nth(k).id| == k + 1 && Nth(k).createdAt == k + 1
  {
  }

  // Two jobs come, and the two before them are evicted.
  function Turn(i: nat): seq<Op> {
    [CreateJob(Nth(2 * i + 2)), CreateJob(Nth(2 * i + 3)), EvictJobs(2 * i + 2)]
  }

  function Story(n: nat): Walk {
    Walk(seq(n, i requires 0 <= i < n => Pair(i)), seq(n, i requires 0 <= i < n => Turn(i)), seq(n, _ => 1),
         seq(n, i requires 0 <= i < n => [Nth(2 * i + 1)]),
         seq(n + 1, i requires 0 <= i <= n => if i == 0 then "" else Nth(2 * i - 1).id))
  }

  lemma SeenAreShort(n: nat, m: nat)
    requires m <= n
    ensures forall id :: id in SeenIds(Story(n).jobs, m) ==> |id| <= 2 * m
  {
    if m > 0 {
      SeenAreShort(n, m - 1);
      PairIds(m - 1);
    }
  }

  lemma PairIds(i: nat)
    ensures IdsOf(Pair(i)) == {Nth(2 * i).id, Nth(2 * i + 1).id} && DistinctIds(Pair(i))
  {
    var a, b := Nth(2 * i), Nth(2 * i + 1);
    var none: seq<Job> := [];
    assert none + [a] == [a] && [a] + [b] == Pair(i);
    IdsAppend(none, a);
    IdsAppend([a], b);
    assert IdsOf(none) == {} && DistinctIds(none);
    assert |a.id| != |b.id|;
  }

  lemma PairSnapshot(i: nat, scope: OwnerScope)
    requires scope == OwnerScope("", "")
    ensures Snapshot(Pair(i), scope) == [Nth(2 * i + 1), Nth(2 * i)]
  {
    var a, b := Nth(2 * i), Nth(2 * i + 1);
    assert Pair(i)[..1] == [a] && [a][..0] == [];
    assert Snapshot([a], scope) == [a];
  }

  lemma OneOfTwo(a: Job, b: Job)
    ensures Page([b, a], 1, "") == ([b], b.id)
  {
    assert [b, a][0..1] == [b];
  }

  lemma PairPage(i: nat, scope: OwnerScope, cursor: string)
    requires scope == OwnerScope("", "") && (if i == 0 then cursor == "" else cursor == Nth(2 * i - 1).id)
    ensures Page(Snapshot(Pair(i), scope), 1, cursor) == ([Nth(2 * i + 1)], Nth(2 * i + 1).id)
  {
    PairIds(i);
    PairSnapshot(i, scope);
    OneOfTwo(Nth(2 * i), Nth(2 * i + 1));
    assert |Nth(2 * i).id| == 2 * i + 1 && |Nth(2 * i + 1).id| == 2 * i + 2;
    hide Page, Snapshot, Pair, IdsOf;
    if i > 0 {
      assert |cursor| == 2 * i;
      LostCursor(Pair(i), scope, 1, cursor);
    }
  }

  lemma TurnLeaves(i: nat)
    ensures ApplyAll(Turn(i), Pair(i)) == Pair(i + 1)
  {
    var c, d, cutoff := Nth(2 * i + 2), Nth(2 * i + 3), 2 * i + 2;
    FourLive(i);
    hide LiveJobs, Nth;
    ApplyThree(CreateJob(c), CreateJob(d), EvictJobs(cutoff), Pair(i));
  }

  lemma FourLive(i: nat)
    ensures LiveJobs(Pair(i) + [Nth(2 * i + 2)] + [Nth(2 * i + 3)], 2 * i + 2) == Pair(i + 1)
  {
    hide LiveJobs, Nth;
    NthIsNamed();
    var a, b, c, d, cutoff := Nth(2 * i), Nth(2 * i + 1), Nth(2 * i + 2), Nth(2 * i + 3), 2 * i + 2;
    var none: seq<Job> := [];
    assert none + [a] == [a] && none + [c] == [c] && Pair(i) == [a] + [b];
    NoneLive(cutoff);
    LiveAppend(none, a, cutoff);
    LiveAppend([a], b, cutoff);
    LiveAppend(Pair(i), c, cutoff);
    LiveAppend(Pair(i) + [c], d, cutoff);
  }

  lemma NoneLive(cutoff: int)
    ensures LiveJobs([], cutoff) == []
  {
  }

  lemma ApplyThree(x: Op, y: Op, z: Op, jobs: seq<Job>)
    ensures ApplyAll([x, y, z], jobs) == Apply(z, Apply(y, Apply(x, jobs)))
  {
    hide Apply;
    var second := Apply(x, jobs);
    var third := Apply(y, second);
    assert [x, y, z][1..] == [y, z] && [y, z][1..] == [z] && [z][1..] == [];
    assert ApplyAll([], Apply(z, third)) == Apply(z, third);
    assert ApplyAll([z], third) == Apply(z, third);
    assert ApplyAll([y, z], second) == ApplyAll([z], third);
  }

  lemma AllowThree(x: Op, y: Op, z: Op, jobs: seq<Job>, start: set<string>)
    requires Allowed(x, jobs, start) && Allowed(y, Apply(x, jobs), start)
    requires Allowed(z, Apply(y, Apply(x, jobs)), start)
    ensures AllAllowed([x, y, z], jobs, start)
  {
    hide Apply, Allowed;
    var second := Apply(x, jobs);
    var third := Apply(y, second);
    assert [x, y, z][1..] == [y, z] && [y, z][1..] == [z] && [z][1..] == [];
    assert AllAllowed([], Apply(z, third), start);
    assert AllAllowed([z], third, start);
    assert AllAllowed([y, z], second, start);
  }

  lemma TurnAllowed(n: nat, i: nat)
    requires i < n
    ensures AllAllowed(Turn(i), Pair(i), SeenIds(Story(n).jobs, i + 1))
  {
    hide AllAllowed, Turn, Pair, Nth, SeenIds;
    SeenAreShort(n, i + 1);
    TurnIsNew(i, SeenIds(Story(n).jobs, i + 1));
  }

  lemma TurnIsNew(i: nat, seen: set<string>)
    requires forall id :: id in seen ==> |id| <= 2 * i + 2
    ensures AllAllowed(Turn(i), Pair(i), seen)
  {
    hide *;
    var c, d := Nth(2 * i + 2), Nth(2 * i + 3);
    IsNew(i, 2 * i + 2, seen);
    IsNew(i, 2 * i + 3, seen);
    Lengths(2 * i + 2, 2 * i + 3);
    Lengths(2 * i + 3, 2 * i + 2);
    NewPairAllowed(Pair(i), c, d, 2 * i + 2, seen);
    TurnIs(i);
  }

  lemma TurnIs(i: nat)
    ensures Turn(i) == [CreateJob(Nth(2 * i + 2)), CreateJob(Nth(2 * i + 3)), EvictJobs(2 * i + 2)]
  {
  }

  lemma Lengths(k: nat, m: nat)
    ensures Nth(k).id != "" && (k != m ==> Nth(k).id != Nth(m).id)
  {
    assert |Nth(k).id| == k + 1 && |Nth(m).id| == m + 1;
  }

  lemma IsNew(i: nat, k: nat, seen: set<string>)
    requires k >= 2 * i + 2 && forall id :: id in seen ==> |id| <= 2 * i + 2
    ensures Nth(k).id !in seen && Nth(k).id !in IdsOf(Pair(i))
  {
    hide IdsOf, Pair;
    PairIds(i);
    Lengths(k, 2 * i);
    Lengths(k, 2 * i + 1);
    assert |Nth(k).id| == k + 1;
  }

  lemma NewPairAllowed(jobs: seq<Job>, c: Job, d: Job, cutoff: int, seen: set<string>)
    requires c.id != "" && d.id != "" && c.id != d.id
    requires c.id !in IdsOf(jobs) && c.id !in seen && d.id !in IdsOf(jobs) && d.id !in seen
    ensures AllAllowed([CreateJob(c), CreateJob(d), EvictJobs(cutoff)], jobs, seen)
  {
    hide IdsOf, AllAllowed;
    IdsAppend(jobs, c);
    AllowThree(CreateJob(c), CreateJob(d), EvictJobs(cutoff), jobs, seen);
  }

  lemma StoryPage(n: nat, i: nat, scope: OwnerScope)
    requires i < n && scope == OwnerScope("", "")
    ensures var w := Story(n);
            (w.pages[i], w.cursors[i + 1]) == Page(Snapshot(w.jobs[i], scope), w.limits[i], w.cursors[i])
  {
    hide Page, Snapshot, Pair, Turn, Nth;
    PairPage(i, scope, if i == 0 then "" else Nth(2 * i - 1).id);
  }

  lemma StoryStart(n: nat, scope: OwnerScope)
    requires n > 0 && scope == OwnerScope("", "")
    ensures var jobs := Story(n).jobs[0];
            DistinctIds(jobs) && "" !in IdsOf(jobs) && |SnapIds(jobs, scope)| == 2
  {
    hide Snapshot, IdsOf, DistinctIds, Nth;
    PairIds(0);
    PairSnapshot(0, scope);
    NthIsNamed();
  }

  lemma StoryGoesOn(n: nat, i: nat)
    requires 1 <= i < n
    ensures GoesOn(Story(n), i)
  {
    hide AllAllowed, ApplyAll, SeenIds, Pair, Turn, Nth;
    TurnLeaves(i - 1);
    TurnAllowed(n, i - 1);
    NthIsNamed();
  }

  /** A walk that keeps starting again has no bound: there is one of any length, over two jobs at a time. */
  lemma {:induction false} NoBound(n: nat) returns (w: Walk, scope: OwnerScope)
    requires n > 0
    ensures IsAnyWalk(w, scope) && |w.pages| == n && |SnapIds(w.jobs[0], scope)| == 2
  {
    scope := OwnerScope("", "");
    w := Story(n);
    hide Page, Snapshot, IdsOf, DistinctIds, GoesOn, Pair, Turn, Nth;
    StoryStart(n, scope);
    forall i | 0 <= i < n
      ensures (w.pages[i], w.cursors[i + 1]) == Page(Snapshot(w.jobs[i], scope), w.limits[i], w.cursors[i])
    {
      StoryPage(n, i, scope);
    }
    forall i | 1 <= i < n
      ensures GoesOn(w, i)
    {
      StoryGoesOn(n, i);
    }
  }
}
