/**
 The in-memory job store (internal/jobstore/store.go). Jobs live in heap objects that are
 held twice: in a slice, modelled as a backing array with a length, and in an index by id.
 */
module JobStore {
  import opened GoStrings
  import opened Jobs

  class JobCell {
    var job: Job

    constructor (job: Job)
      ensures this.job == job
    {
      this.job := job;
    }
  }

  datatype VisibilityError = NotFound | PermissionDenied

  // Among the first n cells, those whose job was created after cutoff, in order.
  ghost function LiveCells(cells: seq<JobCell>, jobs: seq<Job>, cutoff: int, n: nat): seq<JobCell>
    requires n <= |cells| == |jobs|
  {
    if n == 0 then []
    else LiveCells(cells, jobs, cutoff, n - 1) + if jobs[n - 1].createdAt > cutoff then [cells[n - 1]] else []
  }

  // The ids of the other ones.
  ghost function DeadIds(jobs: seq<Job>, cutoff: int, n: nat): set<string>
    requires n <= |jobs|
  {
    if n == 0 then {}
    else DeadIds(jobs, cutoff, n - 1) + if jobs[n - 1].createdAt > cutoff then {} else {jobs[n - 1].id}
  }

  // The live cells hold the live jobs, and the other ids are no longer there.
  lemma {:induction false} LiveCellsHoldLiveJobs(cells: seq<JobCell>, jobs: seq<Job>, cutoff: int, n: nat)
    requires n <= |cells| == |jobs|
    ensures |LiveCells(cells, jobs, cutoff, n)| == |LiveJobs(jobs[..n], cutoff)|
    ensures forall k :: 0 <= k < |LiveJobs(jobs[..n], cutoff)| ==>
              LiveCells(cells, jobs, cutoff, n)[k] == cells[LiveSource(jobs[..n], cutoff, k)]
  {
    if n > 0 {
      LiveCellsHoldLiveJobs(cells, jobs, cutoff, n - 1);
      assert jobs[..n][..n - 1] == jobs[..n - 1];
    }
  }

  lemma {:induction false} DeadIdsAreGone(jobs: seq<Job>, cutoff: int, n: nat)
    requires n <= |jobs| && DistinctIds(jobs[..n])
    ensures DeadIds(jobs, cutoff, n) == IdsOf(jobs[..n]) - IdsOf(LiveJobs(jobs[..n], cutoff))
  {
    hide *;
    if n == 0 {
      NoneDead(jobs, cutoff);
    } else {
      var before, last := jobs[..n - 1], jobs[n - 1];
      assert jobs[..n] == before + [last];
      IdsAppend(before, last);
      DeadIdsAreGone(jobs, cutoff, n - 1);
      DeadIdsNext(jobs, cutoff, n);
      LiveAppend(before, last, cutoff);
      LiveJobsIds(before, cutoff);
      IdsAppend(LiveJobs(before, cutoff), last);
    }
  }

  lemma NoneDead(jobs: seq<Job>, cutoff: int)
    ensures DeadIds(jobs, cutoff, 0) == IdsOf(jobs[..0]) - IdsOf(LiveJobs(jobs[..0], cutoff))
  {
  }

  lemma DeadIdsNext(jobs: seq<Job>, cutoff: int, n: nat)
    requires 0 < n <= |jobs|
    ensures DeadIds(jobs, cutoff, n)
         == DeadIds(jobs, cutoff, n - 1) + if jobs[n - 1].createdAt > cutoff then {} else {jobs[n - 1].id}
  {
  }

  // The index holds exactly the slice's cells, each under its job's id.
  ghost predicate Indexes(index: map<string, JobCell>, cells: seq<JobCell>, jobs: seq<Job>) {
    && |cells| == |jobs|
    && index.Keys == IdsOf(jobs)
    && forall i :: 0 <= i < |jobs| ==> jobs[i].id in index && index[jobs[i].id] == cells[i]
  }

  // An indexed id has exactly one position.
  lemma Locate(index: map<string, JobCell>, cells: seq<JobCell>, jobs: seq<Job>, id: string) returns (i: nat)
    requires Indexes(index, cells, jobs) && DistinctIds(jobs) && id in index
    ensures i < |jobs| && jobs[i].id == id && cells[i] == index[id]
    ensures forall k :: 0 <= k < |jobs| && k != i ==> jobs[k].id != id
  {
    IdsOfMembers(jobs);
    DistinctPairwise(jobs);
    i :| 0 <= i < |jobs| && jobs[i].id == id;
  }

  // Deleting the evicted ids leaves the index of the live cells.
  lemma LiveSlice(index: map<string, JobCell>, live: map<string, JobCell>, cells: seq<JobCell>, jobs: seq<Job>,
                  cutoff: int, liveCells: seq<JobCell>, liveJobs: seq<Job>)
    requires Indexes(index, cells, jobs) && DistinctIds(jobs)
    requires forall i :: 0 <= i < |jobs| ==> cells[i].job == jobs[i]
    requires liveCells == LiveCells(cells, jobs, cutoff, |jobs|) && liveJobs == LiveJobs(jobs, cutoff)
    requires live == index - DeadIds(jobs, cutoff, |jobs|)
    ensures Indexes(live, liveCells, liveJobs) && DistinctIds(liveJobs)
    ensures forall k :: 0 <= k < |liveJobs| ==> liveCells[k].job == liveJobs[k]
  {
    assert jobs[..|jobs|] == jobs;
    LiveCellsHoldLiveJobs(cells, jobs, cutoff, |jobs|);
    LiveJobsIds(jobs, cutoff);
    DeadIdsAreGone(jobs, cutoff, |jobs|);
    IdsOfMembers(liveJobs);
    assert live.Keys == IdsOf(liveJobs);
    forall k | 0 <= k < |liveJobs|
      ensures liveCells[k].job == liveJobs[k] && liveJobs[k].id in live && live[liveJobs[k].id] == liveCells[k]
    {
      assert liveJobs[k].id in IdsOf(liveJobs);
      assert liveJobs[k] == jobs[LiveSource(jobs, cutoff, k)];
    }
  }

  lemma IndexesOneMore(index: map<string, JobCell>, cells: seq<JobCell>, jobs: seq<Job>, cell: JobCell, job: Job)
    requires Indexes(index, cells, jobs) && job.id !in IdsOf(jobs)
    ensures Indexes(index[job.id := cell], cells + [cell], jobs + [job])
  {
    IdsAppend(jobs, job);
  }

  lemma MinusMore<K, V>(m: map<K, V>, dead: set<K>, k: K)
    ensures (m - dead) - {k} == m - (dead + {k})
  {
  }

  // Writing a record keeps the ids exactly when it keeps its own.
  lemma WrittenIds(jobs: seq<Job>, i: nat, job: Job)
    requires DistinctIds(jobs) && i < |jobs|
    ensures if job.id == jobs[i].id then IdsOf(jobs[i := job]) == IdsOf(jobs) && DistinctIds(jobs[i := job])
            else IdsOf(jobs[i := job]) != IdsOf(jobs)
  {
    if job.id == jobs[i].id {
      SameIds(jobs, jobs[i := job]);
    } else {
      DistinctPairwise(jobs);
      IdsOfMembers(jobs);
      IdsOfMembers(jobs[i := job]);
      assert jobs[i].id in IdsOf(jobs);
    }
  }

  lemma IndexWritten(index: map<string, JobCell>, cells: seq<JobCell>, jobs: seq<Job>, i: nat, job: Job)
    requires Indexes(index, cells, jobs) && DistinctIds(jobs) && i < |jobs|
    ensures Indexes(index, cells, jobs[i := job]) && DistinctIds(jobs[i := job]) <==> job.id == jobs[i].id
  {
    hide DistinctIds, IdsOf;
    WrittenIds(jobs, i, job);
  }

  // Every cell has one position.
  lemma CellsDiffer(index: map<string, JobCell>, cells: seq<JobCell>, jobs: seq<Job>, i: nat)
    requires Indexes(index, cells, jobs) && DistinctIds(jobs) && i < |jobs|
    requires forall k :: 0 <= k < |jobs| && cells[k] == cells[i] ==> jobs[k] == jobs[i]
    ensures forall k :: 0 <= k < |jobs| && k != i ==> cells[k] != cells[i]
  {
    DistinctPairwise(jobs);
  }

  lemma Slices(jobs: seq<Job>, need: nat, from: nat, to: nat)
    requires from <= to <= need <= |jobs|
    ensures jobs[..need][from..to] == jobs[from..to]
  {
  }

  class Memory {
    var buf: array<JobCell?>
    var count: nat
    var index: map<string, JobCell>
    const ttl: int
    // The slice's cells and their jobs, oldest first.
    ghost var cells: seq<JobCell>
    ghost var jobs: seq<Job>

    ghost predicate Valid()
      reads this, buf, cells
    {
      && Laid()
      && DistinctIds(jobs)
      && Indexes(index, cells, jobs)
    }

    // The first count elements of the array are the cells, which hold the jobs.
    ghost predicate Laid()
      reads this, buf, cells
    {
      && |cells| == |jobs| == count <= buf.Length
      && (forall i :: 0 <= i < count ==> buf[i] == cells[i])
      && (forall i :: 0 <= i < count ==> cells[i].job == jobs[i])
    }

    constructor (ttl: int)
      ensures Valid() && jobs == [] && fresh(buf)
      ensures this.ttl == if ttl <= 0 then 2 * 60 * 60 * 1_000_000_000 else ttl
    {
      buf := new JobCell?[0];
      count := 0;
      index := map[];
      cells, jobs := [], [];
      this.ttl := if ttl <= 0 then 2 * 60 * 60 * 1_000_000_000 else ttl;
    }

    // Go's append: a full slice moves to a larger array.
    method Append(cell: JobCell)
      requires Laid()
      modifies this`buf, this`count, this`cells, this`jobs, buf
      ensures Laid() && (buf == old(buf) || fresh(buf))
      ensures cells == old(cells) + [cell] && jobs == old(jobs) + [cell.job]
    {
      if count == buf.Length {
        Grow();
      }
      buf[count] := cell;
      count := count + 1;
      cells, jobs := cells + [cell], jobs + [cell.job];
    }

    method Grow()
      requires count <= buf.Length
      modifies this`buf
      ensures fresh(buf) && count < buf.Length
      ensures forall i :: 0 <= i < count ==> buf[i] == old(buf[i])
    {
      var grown := new JobCell?[2 * count + 1](i => null);
      for i := 0 to count
        invariant buf == old(buf) && forall k :: 0 <= k < i ==> grown[k] == buf[k]
      {
        grown[i] := buf[i];
      }
      buf := grown;
    }

    // id is the random identifier drawn for the job; the caller's record gets it too.
    method Create(job: Job, id: string, now: int) returns (created: Job)
      requires Valid() && id !in IdsOf(jobs)
      modifies this, buf
      ensures Valid()
      ensures created == job.(id := id, createdAt := if job.createdAt == ZERO_TIME then now else job.createdAt)
      ensures jobs == old(jobs) + [created]
      ensures exists cell: JobCell :: fresh(cell) && cells == old(cells) + [cell]
    {
      created := job.(id := id);
      if created.createdAt == ZERO_TIME {
        created := created.(createdAt := now);
      }
      var cell := new JobCell(created);
      IdsAppend(jobs, created);
      IndexesOneMore(index, cells, jobs, cell, created);
      index := index[id := cell];
      Append(cell);
    }

    method Get(id: string) returns (r: Option<Job>)
      requires Valid()
      ensures r.Some? <==> id in IdsOf(jobs)
      ensures r.Some? ==> r.value in jobs && r.value.id == id
    {
      if id !in index {
        return None;
      }
      ghost var i := Locate(index, cells, jobs, id);
      r := Some(index[id].job);
    }

    // Writes a job object in place.
    method Write(cell: JobCell, job: Job, ghost i: nat)
      requires Valid() && i < count && cells[i] == cell
      modifies this`jobs, cell
      ensures Laid() && jobs == old(jobs)[i := job]
      ensures Valid() <==> job.id == old(jobs)[i].id
    {
      hide DistinctIds, Indexes;
      CellsDiffer(index, cells, jobs, i);
      IndexWritten(index, cells, jobs, i, job);
      cell.job := job;
      jobs := jobs[i := job];
    }

    // A caller's update may change anything; the store survives it exactly when the id stays.
    method Update(id: string, f: Job -> Job) returns (ok: bool)
      requires Valid()
      modifies this`jobs, cells
      ensures ok <==> id in IdsOf(old(jobs))
      ensures Laid() && jobs == Updated(old(jobs), id, f)
      ensures Valid() <==> forall j :: j in old(jobs) && j.id == id ==> f(j).id == id
    {
      ok := id in index;
      if ok {
        ghost var i := Locate(index, cells, jobs, id);
        assert forall j :: j in jobs && j.id == id ==> j == jobs[i];
        Write(index[id], f(index[id].job), i);
        assert jobs == Updated(old(jobs), id, f);
      } else {
        IdsOfMembers(jobs);
        assert jobs == Updated(old(jobs), id, f);
      }
    }

    method List(limit: int, cursor: string, scope: OwnerScope) returns (page: seq<Job>, next: string)
      requires Valid()
      ensures (page, next) == Page(Snapshot(jobs, scope), limit, cursor)
    {
      var snap := TakeSnapshot(scope);
      page, next := CutPage(snap, limit, cursor);
    }

    // The part of List that runs under the lock.
    method TakeSnapshot(scope: OwnerScope) returns (snap: seq<Job>)
      requires Laid()
      ensures snap == Snapshot(jobs, scope)
    {
      assert Snapshot([], scope) == [] && jobs[..count] == jobs && jobs[..0] == [];
      hide OwnerScope.ListContains, Snapshot;
      snap := [];
      var i := count;
      while i > 0
        invariant 0 <= i <= count
        invariant snap + Snapshot(jobs[..i], scope) == Snapshot(jobs, scope)
      {
        i := i - 1;
        var j := buf[i].job;
        SnapshotStep(jobs, i, scope);
        ghost var rest := Snapshot(jobs[..i], scope);
        if scope.ListContains(j) {
          assert snap + ([j] + rest) == (snap + [j]) + rest;
          snap := snap + [j];
        } else {
          assert [] + rest == rest;
        }
      }
    }

    method AdminList(limit: int, offset: int) returns (page: seq<Job>, total: nat)
      requires Valid()
      ensures total == |jobs|
      ensures page == AdminPage(jobs, limit, offset)
    {
      hide Reversed;
      var size := if limit <= 0 then 50 else limit;
      if size > 500 {
        size := 500;
      }
      var from := if offset < 0 then 0 else offset;
      var need := from + size;
      if need > count {
        need := count;
      }
      var rev := Newest(need);
      total := count;
      if from >= |rev| {
        return [], total;
      }
      var end := size;
      if from + end > |rev| {
        end := |rev| - from;
      }
      Slices(Reversed(jobs), need, from, from + end);
      page := rev[from..from + end];
    }

    // The part of AdminList that runs under the lock.
    method Newest(need: nat) returns (rev: seq<Job>)
      requires Laid() && need <= count
      ensures rev == Reversed(jobs)[..need]
    {
      rev := [];
      var i := count;
      while i > 0 && |rev| < need
        invariant 0 <= i <= count && |rev| == count - i <= need
        invariant rev == Reversed(jobs)[..count - i]
      {
        i := i - 1;
        rev := rev + [buf[i].job];
      }
    }

    method Evict(now: int)
      requires Valid()
      modifies this, buf
      ensures Valid() && buf == old(buf)
      ensures jobs == LiveJobs(old(jobs), now - ttl)
      ensures cells == LiveCells(old(cells), old(jobs), now - ttl, |old(jobs)|)
    {
      hide LiveCells, LiveJobs, DeadIds, DistinctIds, Indexes;
      ghost var liveCells, liveJobs := LiveCells(cells, jobs, now - ttl, |jobs|), LiveJobs(jobs, now - ttl);
      var kept, live := Compact(buf, count, index, now - ttl, cells, jobs);
      LiveSlice(index, live, cells, jobs, now - ttl, liveCells, liveJobs);
      Reslice(kept, liveCells, liveJobs);
      index := live;
    }

    // The slice now holds the first n elements of the array.
    method Reslice(n: nat, ghost newCells: seq<JobCell>, ghost newJobs: seq<Job>)
      requires n == |newCells| == |newJobs| <= buf.Length
      requires forall k :: 0 <= k < n ==> buf[k] == newCells[k]
      requires forall k :: 0 <= k < n ==> newCells[k].job == newJobs[k]
      modifies this`count, this`cells, this`jobs
      ensures Laid() && cells == newCells && jobs == newJobs
    {
      count := n;
      cells, jobs := newCells, newJobs;
    }

    method SetVisibility(id: string, userID: string, visibility: string, now: int)
      returns (err: Option<VisibilityError>)
      requires Valid()
      modifies this`jobs, cells
      ensures Valid()
      ensures err == Some(NotFound) <==> id !in IdsOf(old(jobs))
      ensures err.None? <==> exists j :: j in old(jobs) && j.id == id && j.userID == userID
      ensures jobs == if err.None? then Updated(old(jobs), id, j => WithVisibility(j, visibility, now)) else old(jobs)
    {
      hide DistinctIds;
      if id !in index {
        IdsOfMembers(jobs);
        return Some(NotFound);
      }
      ghost var i := Locate(index, cells, jobs, id);
      var job := index[id].job;
      if job.userID != userID {
        return Some(PermissionDenied);
      }
      job := job.(visibility := visibility);
      if visibility == "public" && job.communityListedAt == ZERO_TIME {
        job := job.(communityListedAt := now);
      }
      assert jobs[i] in jobs;
      Write(index[id], job, i);
      assert jobs == Updated(old(jobs), id, j => WithVisibility(j, visibility, now));
      return None;
    }
  }

  // Compacts the first n elements by writing into the array it is ranging over, and drops
  // the evicted ids from the index.
  method Compact(buf: array<JobCell?>, n: nat, index: map<string, JobCell>, cutoff: int, ghost cells: seq<JobCell>,
                 ghost jobs: seq<Job>)
    returns (kept: nat, live: map<string, JobCell>)
    requires n == |cells| == |jobs| <= buf.Length
    requires forall i :: 0 <= i < n ==> buf[i] == cells[i]
    requires forall i :: 0 <= i < n ==> cells[i].job == jobs[i]
    modifies buf
    ensures kept == |LiveCells(cells, jobs, cutoff, n)| <= buf.Length
    ensures forall k :: 0 <= k < kept ==> buf[k] == LiveCells(cells, jobs, cutoff, n)[k]
    ensures live == index - DeadIds(jobs, cutoff, n)
  {
    kept, live := 0, index;
    ghost var keep: seq<JobCell>, dead: set<string> := [], {};
    for i := 0 to n
      invariant keep == LiveCells(cells, jobs, cutoff, i) && dead == DeadIds(jobs, cutoff, i)
      invariant kept == |keep| <= i
      invariant forall k :: 0 <= k < kept ==> buf[k] == keep[k]
      invariant forall k :: i <= k < n ==> buf[k] == cells[k]
      invariant live == index - dead
    {
      var cell := buf[i];
      if cell.job.createdAt > cutoff {
        buf[kept] := cell;
        kept := kept + 1;
        keep := keep + [cells[i]];
      } else {
        MinusMore(index, dead, cell.job.id);
        live := live - {cell.job.id};
        dead := dead + {jobs[i].id};
      }
    }
  }

  method FindStart(snap: seq<Job>, cursor: string) returns (start: nat)
    ensures start == if cursor == "" then 0 else StartAfter(snap, cursor)
  {
    start := 0;
    if cursor != "" {
      for k := 0 to |snap|
        invariant start == 0
        invariant forall m :: 0 <= m < k ==> snap[m].id != cursor
      {
        if snap[k].id == cursor {
          start := k + 1;
          break;
        }
      }
    }
  }

  // The part of List that runs on the copied snapshot.
  method CutPage(snap: seq<Job>, limit: int, cursor: string) returns (page: seq<Job>, next: string)
    ensures (page, next) == Page(snap, limit, cursor)
  {
    hide StartAfter;
    var size := if limit <= 0 then 20 else limit;
    var start := FindStart(snap, cursor);
    if start >= |snap| {
      return [], "";
    }
    var end := start + size;
    if end > |snap| {
      end := |snap|;
    }
    page := snap[start..end];
    next := "";
    if end < |snap| {
      next := snap[end - 1].id;
    }
  }
}
