/**
 Job records (internal/jobstore/store.go), the owner scope (owner.go) and what each store
 operation does to the sequence of records, oldest first. A Job here is Go's struct value;
 the heap object that holds one is JobStore.JobCell. Times are nanoseconds since Go's zero
 time, so an unset time is ZERO_TIME.
 */
module Jobs {
  const ZERO_TIME := 0

  datatype Status = Queued | Running | Succeeded | Failed

  datatype Image = Image(url: string, thumbURL: string, b64JSON: string, mimeType: string, revisedPrompt: string)

  datatype Job = Job(
    id: string, model: string, provider: string, effectiveModel: string, effectiveProvider: string,
    prompt: string, status: Status, errorCode: string, errorMsg: string, images: seq<Image>,
    tokensUsed: int, upstreamRequestID: string, visibility: string, communityListedAt: int,
    createdAt: int, startedAt: int, finishedAt: int, userID: string, sessionID: string)
  {
    predicate IsTerminal() {
      status == Succeeded || status == Failed
    }
  }

  datatype OwnerScope = OwnerScope(userID: string, sessionID: string) {
    predicate ListContains(j: Job) {
      if userID != "" then j.userID == userID
      else if sessionID != "" then j.userID == "" && j.sessionID == sessionID
      else j.userID == "" && j.sessionID == ""
    }

    predicate CanViewJob(j: Job) {
      if j.userID == "" && j.sessionID == "" then true
      else if userID != "" then j.userID == userID
      else if sessionID != "" then j.userID == "" && j.sessionID == sessionID
      else false
    }
  }

  function IdsOf(jobs: seq<Job>): set<string> {
    if jobs == [] then {} else IdsOf(jobs[..|jobs| - 1]) + {jobs[|jobs| - 1].id}
  }

  lemma {:induction false} IdsOfMembers(jobs: seq<Job>)
    ensures forall id :: id in IdsOf(jobs) <==> exists i :: 0 <= i < |jobs| && jobs[i].id == id
  {
    if jobs != [] {
      var n := |jobs| - 1;
      IdsOfMembers(jobs[..n]);
      forall id | id in IdsOf(jobs)
        ensures exists i :: 0 <= i < |jobs| && jobs[i].id == id
      {
        if id in IdsOf(jobs[..n]) {
          var i :| 0 <= i < n && jobs[..n][i].id == id;
          assert jobs[i].id == id;
        } else {
          assert jobs[n].id == id;
        }
      }
      forall i | 0 <= i < |jobs|
        ensures jobs[i].id in IdsOf(jobs)
      {
        if i < n { assert jobs[..n][i].id in IdsOf(jobs[..n]); }
      }
    }
  }

  ghost predicate DistinctIds(jobs: seq<Job>) {
    jobs == [] ||
    (DistinctIds(jobs[..|jobs| - 1]) && jobs[|jobs| - 1].id !in IdsOf(jobs[..|jobs| - 1]))
  }

  lemma IdsAppend(jobs: seq<Job>, job: Job)
    ensures IdsOf(jobs + [job]) == IdsOf(jobs) + {job.id}
    ensures DistinctIds(jobs + [job]) <==> DistinctIds(jobs) && job.id !in IdsOf(jobs)
  {
    assert (jobs + [job])[..|jobs|] == jobs;
  }

  lemma {:induction false} SameIds(jobs: seq<Job>, jobs': seq<Job>)
    requires |jobs| == |jobs'|
    requires forall i :: 0 <= i < |jobs| ==> jobs[i].id == jobs'[i].id
    ensures IdsOf(jobs) == IdsOf(jobs')
    ensures DistinctIds(jobs) == DistinctIds(jobs')
  {
    if jobs != [] {
      SameIds(jobs[..|jobs| - 1], jobs'[..|jobs| - 1]);
    }
  }

  lemma {:induction false} DistinctPairwise(jobs: seq<Job>)
    ensures DistinctIds(jobs) <==> forall i, j :: 0 <= i < j < |jobs| ==> jobs[i].id != jobs[j].id
  {
    if jobs != [] {
      var n := |jobs| - 1;
      DistinctPairwise(jobs[..n]);
      IdsOfMembers(jobs[..n]);
      hide IdsOf;
      PairwiseLast(jobs);
    }
  }

  lemma PairwiseLast(jobs: seq<Job>)
    requires jobs != []
    ensures var n := |jobs| - 1;
            (forall i, j :: 0 <= i < j < |jobs| ==> jobs[i].id != jobs[j].id) <==>
              && (forall i, j :: 0 <= i < j < n ==> jobs[..n][i].id != jobs[..n][j].id)
              && (forall i :: 0 <= i < n ==> jobs[..n][i].id != jobs[n].id)
  {
    var n := |jobs| - 1;
    assert forall i :: 0 <= i < n ==> jobs[..n][i] == jobs[i];
    if forall i, j :: 0 <= i < j < |jobs| ==> jobs[i].id != jobs[j].id {
      assert forall i :: 0 <= i < n ==> jobs[..n][i].id != jobs[n].id;
    }
  }

  ghost function Updated(jobs: seq<Job>, id: string, f: Job -> Job): (r: seq<Job>)
    ensures |r| == |jobs|
    ensures forall i :: 0 <= i < |r| ==> r[i] == if jobs[i].id == id then f(jobs[i]) else jobs[i]
  {
    seq(|jobs|, i requires 0 <= i < |jobs| => if jobs[i].id == id then f(jobs[i]) else jobs[i])
  }

  // The jobs created after cutoff, in order.
  function LiveJobs(jobs: seq<Job>, cutoff: int): seq<Job> {
    if jobs == [] then []
    else
      var last := jobs[|jobs| - 1];
      LiveJobs(jobs[..|jobs| - 1], cutoff) + if last.createdAt > cutoff then [last] else []
  }

  lemma {:induction false} LiveJobsMembers(jobs: seq<Job>, cutoff: int)
    ensures forall j :: j in LiveJobs(jobs, cutoff) <==> j in jobs && j.createdAt > cutoff
  {
    if jobs != [] {
      var n := |jobs| - 1;
      LiveJobsMembers(jobs[..n], cutoff);
      assert forall j :: j in jobs <==> j in jobs[..n] || j == jobs[n];
    }
  }

  lemma {:induction false} LiveJobsIds(jobs: seq<Job>, cutoff: int)
    ensures IdsOf(LiveJobs(jobs, cutoff)) <= IdsOf(jobs)
    ensures DistinctIds(jobs) ==> DistinctIds(LiveJobs(jobs, cutoff))
  {
    if jobs != [] {
      var before, last := jobs[..|jobs| - 1], jobs[|jobs| - 1];
      LiveJobsIds(before, cutoff);
      var live := LiveJobs(before, cutoff);
      IdsAppend(live, last);
      assert LiveJobs(jobs, cutoff) == if last.createdAt > cutoff then live + [last] else live;
    }
  }

  lemma LiveAppend(jobs: seq<Job>, last: Job, cutoff: int)
    ensures LiveJobs(jobs + [last], cutoff)
         == if last.createdAt > cutoff then LiveJobs(jobs, cutoff) + [last] else LiveJobs(jobs, cutoff)
  {
    assert (jobs + [last])[..|jobs|] == jobs;
  }

  // Where the k-th live job came from.
  ghost function LiveSource(jobs: seq<Job>, cutoff: int, k: nat): (i: nat)
    requires k < |LiveJobs(jobs, cutoff)|
    ensures i < |jobs| && jobs[i] == LiveJobs(jobs, cutoff)[k] && jobs[i].createdAt > cutoff
  {
    var n := |jobs| - 1;
    if k < |LiveJobs(jobs[..n], cutoff)| then LiveSource(jobs[..n], cutoff, k) else n
  }

  // The jobs of a scope, newest first.
  function Snapshot(jobs: seq<Job>, scope: OwnerScope): seq<Job> {
    if jobs == [] then []
    else
      var last := jobs[|jobs| - 1];
      (if scope.ListContains(last) then [last] else []) + Snapshot(jobs[..|jobs| - 1], scope)
  }

  lemma {:induction false} SnapshotMembers(jobs: seq<Job>, scope: OwnerScope)
    ensures forall j :: j in Snapshot(jobs, scope) <==> j in jobs && scope.ListContains(j)
    ensures |Snapshot(jobs, scope)| <= |jobs|
  {
    if jobs != [] {
      SnapshotMembers(jobs[..|jobs| - 1], scope);
      assert forall j :: j in jobs <==> j in jobs[..|jobs| - 1] || j == jobs[|jobs| - 1];
    }
  }

  lemma SnapshotStep(jobs: seq<Job>, i: nat, scope: OwnerScope)
    requires i < |jobs|
    ensures Snapshot(jobs[..i + 1], scope)
         == (if scope.ListContains(jobs[i]) then [jobs[i]] else []) + Snapshot(jobs[..i], scope)
  {
    assert jobs[..i + 1][..i] == jobs[..i];
  }

  function Reversed(jobs: seq<Job>): (r: seq<Job>)
    ensures |r| == |jobs|
    ensures forall i :: 0 <= i < |r| ==> r[i] == jobs[|jobs| - 1 - i]
  {
    seq(|jobs|, i requires 0 <= i < |jobs| => jobs[|jobs| - 1 - i])
  }

  /** Whoever reads a job by id, in a scope's list or in the operator's, reads the same record. */
  lemma ReadersAgree(jobs: seq<Job>, scope: OwnerScope, got: Job)
    requires DistinctIds(jobs) && got in jobs
    ensures forall j :: j in jobs && j.id == got.id ==> j == got
    ensures got in Snapshot(jobs, scope) <==> scope.ListContains(got)
    ensures scope.CanViewJob(got) <==> got in Snapshot(jobs, scope) || (got.userID == "" && got.sessionID == "")
    ensures forall j :: j in Snapshot(jobs, scope) && j.id == got.id ==> j == got
    ensures got in Reversed(jobs) && forall j :: j in Reversed(jobs) ==> j in jobs
  {
    DistinctPairwise(jobs);
    SnapshotMembers(jobs, scope);
    var i :| 0 <= i < |jobs| && jobs[i] == got;
    assert Reversed(jobs)[|jobs| - 1 - i] == got;
  }

  // The position just after the first job with this id; 0 when there is none.
  function StartAfter(snap: seq<Job>, cursor: string): nat {
    if exists i :: 0 <= i < |snap| && snap[i].id == cursor
    then 1 + FirstWith(snap, cursor)
    else 0
  }

  function FirstWith(snap: seq<Job>, id: string): (i: nat)
    requires exists i :: 0 <= i < |snap| && snap[i].id == id
    ensures i < |snap| && snap[i].id == id && forall k :: 0 <= k < i ==> snap[k].id != id
  {
    if snap[0].id == id then 0 else 1 + FirstWith(snap[1..], id)
  }

  // One page of a snapshot and the cursor of the next page ("" after the last).
  function Page(snap: seq<Job>, limit: int, cursor: string): (seq<Job>, string) {
    Cut(snap, if limit <= 0 then 20 else limit, if cursor == "" then 0 else StartAfter(snap, cursor))
  }

  function Cut(snap: seq<Job>, size: int, start: nat): (seq<Job>, string)
    requires size > 0
  {
    if start >= |snap| then ([], "")
    else
      var end := if start + size > |snap| then |snap| else start + size;
      (snap[start..end], if end < |snap| then snap[end - 1].id else "")
  }

  // The newest-first page an operator sees.
  function AdminPage(jobs: seq<Job>, limit: int, offset: int): seq<Job> {
    var size := if limit <= 0 then 50 else if limit > 500 then 500 else limit;
    var from := if offset < 0 then 0 else offset;
    if from >= |jobs| then []
    else Reversed(jobs)[from..if from + size > |jobs| then |jobs| else from + size]
  }

  function WithVisibility(j: Job, visibility: string, now: int): Job {
    var listed := j.(visibility := visibility);
    if visibility == "public" && j.communityListedAt == ZERO_TIME then listed.(communityListedAt := now) else listed
  }
}
