/**
 The life of a generation job (internal/api/generate.go): every job has one background
 goroutine running runJob, and its steps interleave with those of all other jobs, with
 evictions and with visibility changes. Store steps are those of JobStore.Memory.
 */
module JobLifecycle {
  import opened GoStrings
  import opened Generation
  import opened Jobs

  // What keeps the stored record small; the patterns it uses are not modelled.
  datatype Sanitizer = Sanitizer(image: Image -> Image, prompt: string -> string)

  // The three updates of runJob and finalizeJobResult.
  function MarkRunning(now: int): Job -> Job {
    (j: Job) => j.(status := Running, startedAt := now)
  }

  function MarkFailed(e: GenError, finished: int): Job -> Job {
    (j: Job) => j.(status := Failed, errorCode := ErrorCode(e), errorMsg := ErrorText(e), finishedAt := finished)
  }

  function StoredImages(data: seq<Image>, clean: Sanitizer): (r: seq<Image>)
    ensures |r| == |data|
    ensures forall i :: 0 <= i < |r| ==> r[i] == clean.image(data[i])
  {
    seq(|data|, i requires 0 <= i < |data| => clean.image(data[i]))
  }

  function MarkSucceeded(o: Outcome, finished: int, clean: Sanitizer): Job -> Job
    requires o.Generated?
  {
    (j: Job) => j.(status := Succeeded, prompt := clean.prompt(j.prompt), images := StoredImages(o.data, clean),
            finishedAt := finished, tokensUsed := o.tokens, upstreamRequestID := TrimSpace(o.requestID),
            effectiveProvider := if TrimSpace(o.provider) != "" then TrimSpace(o.provider) else j.effectiveProvider,
            effectiveModel := if TrimSpace(o.wireModel) != "" then TrimSpace(o.wireModel) else j.effectiveModel)
  }

  function Finalize(o: Outcome, finished: int, clean: Sanitizer): Job -> Job {
    match o
    case Errored(e) => MarkFailed(e, finished)
    case Generated(_, _, _, _, _, _) => MarkSucceeded(o, finished, clean)
  }

  // Where a job's goroutine is. The two clock readings precede the updates that use them.
  datatype Stage =
    | Spawned
    | Begun(now: int)
    | Marked(now: int)
    | Produced(now: int, outcome: Outcome)
    | Rehosted(now: int, outcome: Outcome)
    | Finishing(now: int, finished: int, outcome: Outcome)
    | Finalized
    | Publishing(userID: string)
    | Ended

  datatype State = State(clock: int, jobs: seq<Job>, procs: map<string, Stage>)

  datatype Step =
    | Tick(to: int)
    | Submit(job: Job, id: string)
    | ReadStart(id: string)
    | Start(id: string)
    | Generate(id: string, answer: Answer, upstreamWire: string)
    | Rehost(id: string, hosting: Hosting, userID: string, outcome: Outcome)
    | ReadFinish(id: string)
    | Finish(id: string, clean: Sanitizer)
    | ReadSettings(id: string, autoPublic: bool)
    | Publish(id: string)
    | SetVisibility(id: string, userID: string, visibility: string)
    | Evict(cutoff: int)

  // A record as jobFromGenerateRequest builds it.
  predicate IsRequest(job: Job) {
    && job.status == Queued && job.images == [] && job.errorCode == "" && job.errorMsg == ""
    && job.createdAt == job.startedAt == job.finishedAt == ZERO_TIME
    && (job.userID != "" ==> job.sessionID == "")
  }

  ghost predicate At(s: State, id: string) {
    id in s.procs
  }

  ghost function Moved(s: State, id: string, stage: Stage): State {
    s.(procs := s.procs[id := stage])
  }

  ghost function VisibilityJobs(jobs: seq<Job>, id: string, userID: string, visibility: string, now: int): seq<Job> {
    if exists j :: j in jobs && j.id == id && j.userID == userID
    then Updated(jobs, id, j => WithVisibility(j, visibility, now))
    else jobs
  }

  // The owner that rehosting reads from the store; nobody when the job is no longer there.
  ghost predicate IsOwner(jobs: seq<Job>, id: string, userID: string) {
    if exists j :: j in jobs && j.id == id then exists j :: j in jobs && j.id == id && j.userID == userID
    else userID == ""
  }

  // One step.
  ghost predicate Next(s: State, step: Step, s': State) {
    match step
    case Tick(to) =>
      to >= s.clock && s' == s.(clock := to)
    case Submit(job, id) =>
      && IsRequest(job) && id !in s.procs
      && s' == Moved(s.(jobs := s.jobs + [job.(id := id, createdAt := s.clock)]), id, Spawned)
    case ReadStart(id) =>
      At(s, id) && s.procs[id].Spawned? && s' == Moved(s, id, Begun(s.clock))
    case Start(id) =>
      && At(s, id) && s.procs[id].Begun?
      && s' == Moved(s.(jobs := Updated(s.jobs, id, MarkRunning(s.procs[id].now))), id, Marked(s.procs[id].now))
    case Generate(id, answer, upstreamWire) =>
      && At(s, id) && s.procs[id].Marked?
      && s' == Moved(s, id, Produced(s.procs[id].now, Executed(answer, upstreamWire)))
    case Rehost(id, hosting, userID, outcome) =>
      && At(s, id) && s.procs[id].Produced? && IsOwner(s.jobs, id, userID)
      && hosting.Rehosts(id, userID, s.procs[id].outcome, outcome)
      && s' == Moved(s, id, Rehosted(s.procs[id].now, outcome))
    case ReadFinish(id) =>
      && At(s, id) && s.procs[id].Rehosted?
      && s' == Moved(s, id, Finishing(s.procs[id].now, s.clock, s.procs[id].outcome))
    case Finish(id, clean) =>
      && At(s, id) && s.procs[id].Finishing?
      && s' == Moved(s.(jobs := Updated(s.jobs, id, Finalize(s.procs[id].outcome, s.procs[id].finished, clean))), id,
                     if s.procs[id].outcome.Errored? then Ended else Finalized)
    case ReadSettings(id, autoPublic) =>
      && At(s, id) && s.procs[id].Finalized?
      && (if autoPublic
          then exists j :: j in s.jobs && j.id == id && j.userID != "" && j.status == Succeeded
                           && s' == Moved(s, id, Publishing(j.userID))
          else s' == Moved(s, id, Ended))
    case Publish(id) =>
      && At(s, id) && s.procs[id].Publishing?
      && s' == Moved(s.(jobs := VisibilityJobs(s.jobs, id, s.procs[id].userID, "public", s.clock)), id, Ended)
    case SetVisibility(id, userID, visibility) =>
      s' == s.(jobs := VisibilityJobs(s.jobs, id, userID, visibility, s.clock))
    case Evict(cutoff) =>
      s' == s.(jobs := LiveJobs(s.jobs, cutoff))
  }

  ghost predicate Init(s: State) {
    s.clock > ZERO_TIME && s.jobs == [] && s.procs == map[]
  }

  // What a record looks like while its goroutine is at a stage.
  ghost predicate Fits(j: Job, stage: Stage, clock: int) {
    match stage
    case Spawned => IsPending(j)
    case Begun(_) => IsPending(j)
    case Marked(now) => IsRunning(j, now)
    case Produced(now, _) => IsRunning(j, now)
    case Rehosted(now, _) => IsRunning(j, now)
    case Finishing(now, _, _) => IsRunning(j, now)
    case Finalized => IsDone(j, clock)
    case Publishing(_) => IsDone(j, clock)
    case Ended => IsDone(j, clock)
  }

  predicate IsPending(j: Job) {
    && j.status == Queued && j.startedAt == j.finishedAt == ZERO_TIME
    && j.images == [] && j.errorCode == ""
  }

  predicate IsRunning(j: Job, now: int) {
    && j.status == Running && j.startedAt == now && j.finishedAt == ZERO_TIME
    && j.images == [] && j.errorCode == ""
  }

  predicate IsDone(j: Job, clock: int) {
    && j.IsTerminal()
    && ZERO_TIME < j.startedAt <= j.finishedAt <= clock
    && (j.status == Failed ==> j.errorCode != "" && j.images == [])
    && (j.status == Succeeded ==> j.errorCode == "" && j.images != [])
  }

  // What a goroutine has in hand.
  ghost predicate StageOk(stage: Stage, clock: int) {
    match stage
    case Begun(now) => ZERO_TIME < now <= clock
    case Marked(now) => ZERO_TIME < now <= clock
    case Produced(now, o) => ZERO_TIME < now <= clock && (o.Generated? ==> o.data != [])
    case Rehosted(now, o) => ZERO_TIME < now <= clock && (o.Generated? ==> o.data != [])
    case Finishing(now, finished, o) => ZERO_TIME < now <= finished <= clock && (o.Generated? ==> o.data != [])
    case _ => true
  }

  ghost predicate Inv(s: State) {
    && s.clock > ZERO_TIME
    && (forall id :: id in s.procs ==> StageOk(s.procs[id], s.clock))
    && (forall j :: j in s.jobs ==> j.id in s.procs && Fits(j, s.procs[j.id], s.clock))
  }

  function Rank(status: Status): nat {
    match status
    case Queued => 0
    case Running => 1
    case Succeeded => 2
    case Failed => 2
  }

  // j' may be a later state of j: the status only moves forward, and a terminal record
  // changes in nothing but its visibility.
  predicate Later(j: Job, j': Job) {
    && j'.id == j.id && j'.userID == j.userID && j'.createdAt == j.createdAt
    && Rank(j.status) <= Rank(j'.status)
    && (j.IsTerminal() ==> j' == j.(visibility := j'.visibility, communityListedAt := j'.communityListedAt))
  }

  // Every job of s' whose id was already taken in s is a later state of a job of s.
  ghost predicate Advances(s: State, s': State) {
    && s.clock <= s'.clock
    && s.procs.Keys <= s'.procs.Keys
    && forall j' :: j' in s'.jobs && j'.id in s.procs ==> ComesFrom(s.jobs, j')
  }

  ghost predicate ComesFrom(jobs: seq<Job>, j': Job) {
    exists j :: j in jobs && Later(j, j')
  }

  // Every record after an update was one before it.
  lemma UpdatedFrom(jobs: seq<Job>, id: string, f: Job -> Job, j': Job) returns (j: Job)
    requires j' in Updated(jobs, id, f)
    ensures j in jobs && j' == if j.id == id then f(j) else j
  {
    var i :| 0 <= i < |jobs| && Updated(jobs, id, f)[i] == j';
    j := jobs[i];
  }

  // What one step does to one record.
  ghost predicate RecordOk(s: State, s': State, j': Job) {
    && j'.id in s'.procs && Fits(j', s'.procs[j'.id], s'.clock)
    && (j'.id in s.procs ==> ComesFrom(s.jobs, j'))
  }

  // A record that was there before, at a stage that did not touch it.
  lemma Untouched(s: State, s': State, j: Job)
    requires Inv(s) && j in s.jobs && s'.clock >= s.clock && j.id in s'.procs
    requires Fits(j, s.procs[j.id], s.clock) ==> Fits(j, s'.procs[j.id], s'.clock)
    ensures RecordOk(s, s', j)
  {
    assert Later(j, j);
  }

  // A goroutine moves on without touching the store.
  lemma MoveKeeps(s: State, id: string, stage: Stage, j: Job)
    requires Inv(s) && id in s.procs && j in s.jobs
    requires Fits(j, s.procs[id], s.clock) ==> Fits(j, stage, s.clock)
    ensures RecordOk(s, Moved(s, id, stage), j)
  {
    Untouched(s, Moved(s, id, stage), j);
  }

  // A store update of one job by its own goroutine.
  lemma UpdateKeeps(s: State, id: string, f: Job -> Job, stage: Stage, j': Job)
    requires Inv(s) && id in s.procs && j' in Updated(s.jobs, id, f)
    requires forall j :: j in s.jobs && j.id == id ==> Later(j, f(j)) && Fits(f(j), stage, s.clock)
    ensures RecordOk(s, Moved(s.(jobs := Updated(s.jobs, id, f)), id, stage), j')
  {
    var j := UpdatedFrom(s.jobs, id, f, j');
    assert Later(j, j) && Fits(j, s.procs[j.id], s.clock);
  }

  // A visibility change, with the goroutines where they are or one of them ended.
  lemma VisibilityKeeps(s: State, id: string, userID: string, visibility: string, j': Job)
    requires Inv(s) && j' in VisibilityJobs(s.jobs, id, userID, visibility, s.clock)
    ensures RecordOk(s, s, j')
  {
    var j := VisibilityFrom(s.jobs, id, userID, visibility, s.clock, j');
    assert Later(j, j') && Fits(j, s.procs[j.id], s.clock);
  }

  lemma SubmitKeeps(s: State, job: Job, id: string, j': Job)
    requires Inv(s) && IsRequest(job) && id !in s.procs
    requires j' in s.jobs + [job.(id := id, createdAt := s.clock)]
    ensures RecordOk(s, Moved(s, id, Spawned), j')
  {
    if j' in s.jobs {
      Untouched(s, Moved(s, id, Spawned), j');
    }
  }

  // The steps that leave the store alone.
  lemma LocalStepKeepsRecord(s: State, step: Step, s': State, id: string, j': Job)
    requires Inv(s) && Next(s, step, s') && j' in s'.jobs
    requires step == ReadStart(id) || step == ReadFinish(id) || (step.Generate? && step.id == id)
          || (step.Rehost? && step.id == id) || (step.ReadSettings? && step.id == id)
    ensures RecordOk(s, s', j')
  {
    hide Executed, Hosting.Rehosts;
    assert s'.jobs == s.jobs && s' == Moved(s, id, s'.procs[id]);
    assert Fits(j', s.procs[id], s.clock) ==> Fits(j', s'.procs[id], s.clock);
    MoveKeeps(s, id, s'.procs[id], j');
  }

  // What the closing update makes of a running record.
  lemma FinalizeFits(j: Job, now: int, finished: int, o: Outcome, clean: Sanitizer, clock: int)
    requires IsRunning(j, now) && ZERO_TIME < now <= finished <= clock && (o.Generated? ==> o.data != [])
    ensures Later(j, Finalize(o, finished, clean)(j)) && IsDone(Finalize(o, finished, clean)(j), clock)
  {
    hide ErrorCode, ErrorText, TrimSpace;
    match o
    case Errored(e) => assert ErrorCode(e) != "";
    case Generated(data, _, _, _, _, _) => assert |StoredImages(data, clean)| == |data|;
  }

  lemma FinishKeepsRecord(s: State, id: string, clean: Sanitizer, s': State, j': Job)
    requires Inv(s) && Next(s, Finish(id, clean), s') && j' in s'.jobs
    ensures RecordOk(s, s', j')
  {
    var f := Finalize(s.procs[id].outcome, s.procs[id].finished, clean);
    forall j | j in s.jobs && j.id == id
      ensures Later(j, f(j)) && Fits(f(j), s'.procs[id], s.clock)
    {
      FinalizeFits(j, s.procs[id].now, s.procs[id].finished, s.procs[id].outcome, clean, s.clock);
    }
    UpdateKeeps(s, id, f, s'.procs[id], j');
  }

  lemma StartKeepsRecord(s: State, id: string, s': State, j': Job)
    requires Inv(s) && Next(s, Start(id), s') && j' in s'.jobs
    ensures RecordOk(s, s', j')
  {
    assert forall j :: j in s.jobs && j.id == id ==> IsPending(j);
    UpdateKeeps(s, id, MarkRunning(s.procs[id].now), s'.procs[id], j');
  }

  // The steps of the store itself and of other callers.
  lemma StoreStepKeepsRecord(s: State, step: Step, s': State, j': Job)
    requires Inv(s) && Next(s, step, s') && j' in s'.jobs
    requires step.Tick? || step.Submit? || step.Publish? || step.SetVisibility? || step.Evict?
    ensures RecordOk(s, s', j')
  {
    match step
    case Tick(_) => Untouched(s, s', j');
    case Submit(job, id) => SubmitKeeps(s, job, id, j');
    case Publish(id) => VisibilityKeeps(s, id, s.procs[id].userID, "public", j');
    case SetVisibility(id, userID, visibility) => VisibilityKeeps(s, id, userID, visibility, j');
    case Evict(cutoff) =>
      LiveJobsMembers(s.jobs, cutoff);
      Untouched(s, s', j');
  }

  lemma StepKeepsRecord(s: State, step: Step, s': State, j': Job)
    requires Inv(s) && Next(s, step, s') && j' in s'.jobs
    ensures RecordOk(s, s', j')
  {
    if step.Start? {
      StartKeepsRecord(s, step.id, s', j');
    } else if step.Finish? {
      FinishKeepsRecord(s, step.id, step.clean, s', j');
    } else if step.Tick? || step.Submit? || step.Publish? || step.SetVisibility? || step.Evict? {
      StoreStepKeepsRecord(s, step, s', j');
    } else {
      LocalStepKeepsRecord(s, step, s', step.id, j');
    }
  }

  lemma StepKeepsStages(s: State, step: Step, s': State)
    requires Inv(s) && Next(s, step, s')
    ensures s'.clock >= s.clock && s.procs.Keys <= s'.procs.Keys
    ensures forall id :: id in s'.procs ==> StageOk(s'.procs[id], s'.clock)
  {
    hide TrimSpace, Hosting.Rehosts, Fits, MarkRunning, Finalize, VisibilityJobs;
    if step.Rehost? {
      RehostingKeepsSlots(step.hosting, step.id, step.userID, s.procs[step.id].outcome, step.outcome);
    }
  }

  // One step keeps the invariant and only moves jobs forward.
  lemma StepKeeps(s: State, step: Step, s': State)
    requires Inv(s) && Next(s, step, s')
    ensures Inv(s') && Advances(s, s')
  {
    StepKeepsStages(s, step, s');
    forall j' | j' in s'.jobs
      ensures RecordOk(s, s', j')
    {
      StepKeepsRecord(s, step, s', j');
    }
  }

  lemma VisibilityFrom(jobs: seq<Job>, id: string, userID: string, visibility: string, now: int, j': Job)
    returns (j: Job)
    requires j' in VisibilityJobs(jobs, id, userID, visibility, now)
    ensures j in jobs && (j' == j || j' == WithVisibility(j, visibility, now))
  {
    if exists j :: j in jobs && j.id == id && j.userID == userID {
      j := UpdatedFrom(jobs, id, j => WithVisibility(j, visibility, now), j');
    } else {
      j := j';
    }
  }

  ghost predicate IsRun(run: seq<State>, steps: seq<Step>) {
    && |run| == |steps| + 1 && Init(run[0])
    && forall i :: 0 <= i < |steps| ==> Next(run[i], steps[i], run[i + 1])
  }

  // The invariant holds in every reachable state.
  lemma {:induction false} ReachableInv(run: seq<State>, steps: seq<Step>, i: nat)
    requires IsRun(run, steps) && i < |run|
    ensures Inv(run[i])
  {
    if i > 0 {
      ReachableInv(run, steps, i - 1);
      StepKeeps(run[i - 1], steps[i - 1], run[i]);
    }
  }

  lemma {:induction false} RunAdvances(run: seq<State>, steps: seq<Step>, i: nat, k: nat)
    requires IsRun(run, steps) && i <= k < |run|
    ensures Advances(run[i], run[k])
    decreases k
  {
    hide *;
    if i < k {
      RunAdvances(run, steps, i, k - 1);
      ReachableInv(run, steps, k - 1);
      StepBefore(run, steps, k);
      StepKeeps(run[k - 1], steps[k - 1], run[k]);
      AdvancesTwice(run[i], run[k - 1], run[k]);
    } else {
      AdvancesSelf(run[i]);
    }
  }

  lemma StepBefore(run: seq<State>, steps: seq<Step>, k: nat)
    requires IsRun(run, steps) && 0 < k < |run|
    ensures k <= |steps| && Next(run[k - 1], steps[k - 1], run[k])
  {
    hide Next, Init;
    assert Next(run[k - 1], steps[k - 1], run[k - 1 + 1]);
  }

  lemma AdvancesSelf(s: State)
    ensures Advances(s, s)
  {
    forall j' | j' in s.jobs
      ensures ComesFrom(s.jobs, j')
    {
      assert Later(j', j');
    }
  }

  lemma AdvancesTwice(s: State, s': State, s'': State)
    requires Advances(s, s') && Advances(s', s'')
    ensures Advances(s, s'')
  {
    forall j'' | j'' in s''.jobs && j''.id in s.procs
      ensures ComesFrom(s.jobs, j'')
    {
      var j' :| j' in s'.jobs && Later(j', j'');
      var j :| j in s.jobs && Later(j, j');
      assert Later(j, j'');
    }
  }

  /**
   Over every interleaving: a record's status only moves from queued to running to a final
   state; a final record never changes again but for its visibility; and a job that is not
   in the store, though its id has been given out, never comes back.
   */
  lemma LifecycleMovesForward(run: seq<State>, steps: seq<Step>, i: nat, k: nat, j': Job)
    requires IsRun(run, steps) && i <= k < |run|
    requires j' in run[k].jobs && j'.id in run[i].procs
    ensures exists j :: j in run[i].jobs && j.id == j'.id
    ensures exists j :: j in run[i].jobs && Later(j, j')
  {
    RunAdvances(run, steps, i, k);
    var j :| j in run[i].jobs && Later(j, j');
  }

  // What every stored record of every reachable state satisfies.
  lemma RecordsAreConsistent(run: seq<State>, steps: seq<Step>, i: nat, j: Job)
    requires IsRun(run, steps) && i < |run| && j in run[i].jobs
    ensures j.IsTerminal() <==> j.finishedAt != ZERO_TIME
    ensures j.finishedAt != ZERO_TIME ==> ZERO_TIME < j.startedAt <= j.finishedAt <= run[i].clock
    ensures j.status == Queued <==> j.startedAt == ZERO_TIME
    ensures j.status == Failed <==> j.errorCode != ""
    ensures j.status == Succeeded <==> j.images != []
  {
    ReachableInv(run, steps, i);
    assert Fits(j, run[i].procs[j.id], run[i].clock);
  }

  // Once its goroutine has ended, a job still in the store is in a final state.
  lemma EndedJobsAreFinal(run: seq<State>, steps: seq<Step>, i: nat, j: Job)
    requires IsRun(run, steps) && i < |run| && j in run[i].jobs
    requires j.id in run[i].procs && run[i].procs[j.id].Ended?
    ensures j.IsTerminal()
  {
    ReachableInv(run, steps, i);
  }
}
