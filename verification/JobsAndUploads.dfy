/**
 All jobs and all uploads at once: JobLifecycle and UploadSystem side by side, joined where a
 goroutine goes on with the result of its own upload (runJob in internal/api/generate.go and
 materializeJobOutputsOSS in internal/api/oss_materialize.go). By UploadRuns.OutputIsARun such
 an upload has by then committed with the rows of the result's objects.
 */
module JobsAndUploads {
  import opened GoStrings
  import opened Generation
  import opened Jobs
  import opened ObjStore
  import opened OutputUpload
  import JobLifecycle
  import UploadSystem

  // The upload behind a job's result, what it was to upload, and the slots it left.
  datatype Behind = Behind(u: nat, output: Output, data: seq<Image>)

  // behind: the jobs whose results have been uploaded.
  datatype State = State(jobs: JobLifecycle.State, uploads: UploadSystem.State, behind: map<string, Behind>)

  datatype Step =
    | OfJobs(js: JobLifecycle.Step)
    | OfUploads(us: UploadSystem.Step)
    | Hosted(id: string, hosting: Hosting, userID: string, outcome: Outcome, u: nat)

  // The result that a goroutine is about to rehost.
  ghost predicate Produces(s: JobLifecycle.State, id: string) {
    id in s.procs && s.procs[id].Produced? && s.procs[id].outcome.Generated?
  }

  // Whether rehosting ends with an uploaded result.
  ghost predicate IsUploaded(s: JobLifecycle.State, id: string, h: Hosting, userID: string, outcome: Outcome) {
    && Produces(s, id) && h.Uploads(userID)
    && h.ToUpload(id, s.procs[id].outcome).Generated? && outcome.Generated?
  }

  ghost predicate Next(s: State, step: Step, s': State) {
    match step
    case OfJobs(js) =>
      && JobLifecycle.Next(s.jobs, js, s'.jobs) && s' == s.(jobs := s'.jobs)
      && (js.Rehost? ==> !IsUploaded(s.jobs, js.id, js.hosting, js.userID, js.outcome))
    case OfUploads(us) =>
      UploadSystem.Next(s.uploads, us, s'.uploads) && s' == s.(uploads := s'.uploads)
    case Hosted(id, h, userID, outcome, u) =>
      && IsUploaded(s.jobs, id, h, userID, outcome)
      && JobLifecycle.Next(s.jobs, JobLifecycle.Rehost(id, h, userID, outcome), s'.jobs)
      && var o := h.UploadOf(id, userID, h.ToUpload(id, s.jobs.procs[id].outcome));
      && HasUploaded(s.uploads, u, o)
      && s' == s.(jobs := s'.jobs, behind := s.behind[id := Behind(u, o, outcome.data)])
  }

  // The upload has committed with exactly the rows of the result's objects.
  ghost predicate HasUploaded(s: UploadSystem.State, u: nat, o: Output) {
    UploadSystem.In(s, u, UploadSystem.Committed) && s.uploads[u].rows == RowsOf(o.Blobs(|o.data|))
  }

  ghost predicate Init(s: State) {
    JobLifecycle.Init(s.jobs) && UploadSystem.Init(s.uploads) && s.behind == map[]
  }

  // Where the goroutine of an uploaded result may be, and what its record shows once it is finished.
  ghost predicate Shows(s: JobLifecycle.State, id: string, data: seq<Image>) {
    && id in s.procs
    && match s.procs[id]
       case Rehosted(_, o) => o.Generated? && o.data == data
       case Finishing(_, _, o) => o.Generated? && o.data == data
       case Finalized => AllShow(s.jobs, id, data)
       case Publishing(_) => AllShow(s.jobs, id, data)
       case Ended => AllShow(s.jobs, id, data)
       case _ => false
  }

  ghost predicate AllShow(jobs: seq<Job>, id: string, data: seq<Image>) {
    forall j :: j in jobs && j.id == id ==> j.status == Succeeded && IsCleaned(j.images, data)
  }

  // The stored images are the slots, made small in some way.
  ghost predicate IsCleaned(images: seq<Image>, data: seq<Image>) {
    exists clean :: images == JobLifecycle.StoredImages(data, clean)
  }

  ghost predicate BehindOk(s: State, id: string)
    requires id in s.behind
  {
    var b := s.behind[id];
    && Shows(s.jobs, id, b.data) && HasUploaded(s.uploads, b.u, b.output)
    && b.output.Failure().None? && Served(b.output, b.data, |b.output.data|)
  }

  ghost predicate Inv(s: State) {
    && JobLifecycle.Inv(s.jobs) && UploadSystem.Inv(s.uploads)
    && forall id :: id in s.behind ==> BehindOk(s, id)
  }

  // A committed upload is never touched again.
  lemma CommittedStays(s: UploadSystem.State, step: UploadSystem.Step, s': UploadSystem.State, u: nat)
    requires UploadSystem.Next(s, step, s') && UploadSystem.In(s, u, UploadSystem.Committed)
    ensures UploadSystem.In(s', u, UploadSystem.Committed) && s'.uploads[u] == s.uploads[u]
  {
    hide Quota.AppendOutcome, Quota.Sum;
  }

  // A step of another goroutine, or of the store, keeps what a finished record shows.
  lemma RecordsKeepShowing(s: JobLifecycle.State, step: JobLifecycle.Step, s': JobLifecycle.State, id: string,
                           data: seq<Image>)
    requires JobLifecycle.Next(s, step, s') && id in s.procs && AllShow(s.jobs, id, data)
    requires step.Finish? || step.Start? ==> step.id != id
    ensures AllShow(s'.jobs, id, data)
  {
    hide JobLifecycle.StoredImages, JobLifecycle.Finalize, JobLifecycle.MarkRunning, Executed, Hosting.Rehosts;
    hide IsCleaned;
    hide LiveJobs, Updated, JobLifecycle.VisibilityJobs, WithVisibility;
    forall j' | j' in s'.jobs && j'.id == id
      ensures j'.status == Succeeded && IsCleaned(j'.images, data)
    {
      var j := RecordBefore(s, step, s', j');
    }
  }

  // A record after such a step was there before, with the same status and images.
  lemma RecordBefore(s: JobLifecycle.State, step: JobLifecycle.Step, s': JobLifecycle.State, j': Job) returns (j: Job)
    requires JobLifecycle.Next(s, step, s') && j' in s'.jobs && j'.id in s.procs
    requires step.Finish? || step.Start? ==> step.id != j'.id
    ensures j in s.jobs && j.id == j'.id && j.status == j'.status && j.images == j'.images
  {
    hide JobLifecycle.StoredImages, Executed, Hosting.Rehosts, LiveJobs, Updated, JobLifecycle.VisibilityJobs;
    j := j';
    match step
    case Start(id) => j := JobLifecycle.UpdatedFrom(s.jobs, id, JobLifecycle.MarkRunning(s.procs[id].now), j');
    case Finish(id, clean) =>
      j := JobLifecycle.UpdatedFrom(s.jobs, id,
                                    JobLifecycle.Finalize(s.procs[id].outcome, s.procs[id].finished, clean), j');
    case Publish(id) => j := JobLifecycle.VisibilityFrom(s.jobs, id, s.procs[id].userID, "public", s.clock, j');
    case SetVisibility(id, userID, visibility) =>
      j := JobLifecycle.VisibilityFrom(s.jobs, id, userID, visibility, s.clock, j');
    case Evict(cutoff) => LiveJobsMembers(s.jobs, cutoff);
    case _ =>
  }

  // The closing update makes the record show the uploaded slots.
  lemma FinishShows(s: JobLifecycle.State, id: string, clean: JobLifecycle.Sanitizer, s': JobLifecycle.State,
                    data: seq<Image>)
    requires JobLifecycle.Next(s, JobLifecycle.Finish(id, clean), s') && Shows(s, id, data)
    ensures Shows(s', id, data)
  {
    hide JobLifecycle.StoredImages, TrimSpace, Updated;
    var o := s.procs[id].outcome;
    var f := JobLifecycle.Finalize(o, s.procs[id].finished, clean);
    forall j' | j' in s'.jobs && j'.id == id
      ensures j'.status == Succeeded && IsCleaned(j'.images, data)
    {
      var j := JobLifecycle.UpdatedFrom(s.jobs, id, f, j');
      assert j'.images == JobLifecycle.StoredImages(data, clean);
    }
  }

  // Whatever the goroutines and the store do, an uploaded result stays shown.
  lemma {:induction false} JobStepKeepsShowing(s: JobLifecycle.State, step: JobLifecycle.Step,
                                               s': JobLifecycle.State, id: string, data: seq<Image>)
    requires JobLifecycle.Next(s, step, s') && Shows(s, id, data)
    ensures Shows(s', id, data)
  {
    hide JobLifecycle.StoredImages, JobLifecycle.Finalize, JobLifecycle.MarkRunning, Executed, Hosting.Rehosts;
    hide IsCleaned;
    hide LiveJobs, Updated, JobLifecycle.VisibilityJobs, AllShow;
    if step.Finish? && step.id == id {
      FinishShows(s, id, step.clean, s', data);
    } else if s.procs[id].Finalized? || s.procs[id].Publishing? || s.procs[id].Ended? {
      RecordsKeepShowing(s, step, s', id, data);
    }
  }

  lemma {:induction false} StepKeeps(s: State, step: Step, s': State)
    requires Inv(s) && Next(s, step, s')
    ensures Inv(s')
  {
    PartsKeep(s, step, s');
    hide Next, JobLifecycle.Inv, UploadSystem.Inv, BehindOk;
    KeepsBehind(s, step, s');
    forall id | id in s'.behind
      ensures BehindOk(s', id)
    {
      if step.Hosted? && step.id == id {
        HostedIsOk(s, step, s');
      } else {
        OthersStayOk(s, step, s', id);
      }
    }
  }

  lemma KeepsBehind(s: State, step: Step, s': State)
    requires Next(s, step, s')
    ensures s'.behind.Keys == s.behind.Keys + if step.Hosted? then {step.id} else {}
  {
    hide JobLifecycle.Next, UploadSystem.Next, IsUploaded, HasUploaded, Hosting.ToUpload;
  }

  // Each step is one of either system, or of both.
  lemma PartsKeep(s: State, step: Step, s': State)
    requires Inv(s) && Next(s, step, s')
    ensures JobLifecycle.Inv(s'.jobs) && UploadSystem.Inv(s'.uploads)
  {
    hide JobLifecycle.Next, UploadSystem.Next, UploadSystem.Inv, JobLifecycle.Inv, BehindOk, IsUploaded, HasUploaded;
    hide Hosting.ToUpload;
    match step
    case OfUploads(us) => UploadSystem.StepKeeps(s.uploads, us, s'.uploads);
    case OfJobs(js) => JobLifecycle.StepKeeps(s.jobs, js, s'.jobs);
    case Hosted(id, h, userID, outcome, _) =>
      JobLifecycle.StepKeeps(s.jobs, JobLifecycle.Rehost(id, h, userID, outcome), s'.jobs);
  }

  lemma {:induction false} OthersStayOk(s: State, step: Step, s': State, id: string)
    requires Next(s, step, s') && id in s.behind && BehindOk(s, id) && !(step.Hosted? && step.id == id)
    ensures id in s'.behind && BehindOk(s', id)
  {
    hide JobLifecycle.Next, UploadSystem.Next, UploadSystem.Inv, Shows, Served, Output.Failure, Output.Blobs;
    var b := s.behind[id];
    match step
    case OfUploads(us) => CommittedStays(s.uploads, us, s'.uploads, b.u);
    case OfJobs(js) => JobStepKeepsShowing(s.jobs, js, s'.jobs, id, b.data);
    case Hosted(id', h, userID, outcome, _) =>
      JobStepKeepsShowing(s.jobs, JobLifecycle.Rehost(id', h, userID, outcome), s'.jobs, id, b.data);
  }

  lemma {:induction false} HostedIsOk(s: State, step: Step, s': State)
    requires step.Hosted? && Next(s, step, s')
    ensures step.id in s'.behind && BehindOk(s', step.id)
  {
    hide Served, Output.Failure, Output.Blobs, Hosting.ToUpload;
    RehostingKeepsSlots(step.hosting, step.id, step.userID, s.jobs.procs[step.id].outcome, step.outcome);
  }

  // Images are those of the slots after their upload, made small in some way.
  ghost predicate ShowsSlots(images: seq<Image>, o: Output, clean: JobLifecycle.Sanitizer) {
    && |images| == |o.data|
    && forall k :: 0 <= k < |o.data| ==> !o.At(k).Blocks() && images[k] == clean.image(o.At(k).Hosted())
  }

  ghost predicate IsRun(run: seq<State>, steps: seq<Step>) {
    && |run| == |steps| + 1 && Init(run[0])
    && forall i :: 0 <= i < |steps| ==> Next(run[i], steps[i], run[i + 1])
  }

  lemma {:induction false} ReachableInv(run: seq<State>, steps: seq<Step>, i: nat)
    requires IsRun(run, steps) && i < |run|
    ensures Inv(run[i])
  {
    hide Next, BehindOk;
    if i == 0 {
      StartIsInv(run[0]);
    } else {
      ReachableInv(run, steps, i - 1);
      assert Next(run[i - 1], steps[i - 1], run[i - 1 + 1]);
      StepKeeps(run[i - 1], steps[i - 1], run[i]);
    }
  }

  lemma StartIsInv(s: State)
    requires Init(s)
    ensures Inv(s)
  {
  }

  // Every object of a committed upload is stored with its size.
  lemma {:induction false} RowsAreStored(s: UploadSystem.State, u: nat, o: Output, b: Blob)
    requires UploadSystem.Inv(s) && HasUploaded(s, u, o) && b in o.Blobs(|o.data|)
    ensures b.key in s.objects && s.objects[b.key] == |b.body|
  {
    hide Output.Blobs, UploadSystem.OwnedObject, UploadSystem.OwnedRow, Quota.Balanced;
    var blobs := o.Blobs(|o.data|);
    var i :| 0 <= i < |blobs| && blobs[i] == b;
    assert UploadSystem.UploadOk(s, u);
    assert RowsOf(blobs)[i] in s.uploads[u].rows;
  }

  /**
   Over every interleaving of all jobs, uploads, evictions and administrators: the record of a
   succeeded job whose result was uploaded shows the uploaded slots, and every object behind them
   is in the store with its exact size.
   */
  lemma {:induction false} UploadedImagesAreStored(run: seq<State>, steps: seq<Step>, i: nat, j: Job)
    requires IsRun(run, steps) && i < |run| && j in run[i].jobs.jobs && j.id in run[i].behind
    requires j.status == Succeeded
    ensures var o := run[i].behind[j.id].output;
            && (exists clean :: ShowsSlots(j.images, o, clean))
            && forall k, b :: 0 <= k < |o.data| && b in o.At(k).Blobs() ==>
                 b.key in run[i].uploads.objects && run[i].uploads.objects[b.key] == |b.body|
  {
    hide *;
    ReachableInv(run, steps, i);
    InvParts(run[i], j.id);
    var b := run[i].behind[j.id];
    RecordShows(run[i], j);
    forall k, x | 0 <= k < |b.output.data| && x in b.output.At(k).Blobs()
      ensures x.key in run[i].uploads.objects && run[i].uploads.objects[x.key] == |x.body|
    {
      SlotBlobIn(b.output, k, |b.output.data|, x);
      BehindIsUploaded(run[i], j.id);
      RowsAreStored(run[i].uploads, b.u, b.output, x);
    }
  }

  lemma InvParts(s: State, id: string)
    requires Inv(s) && id in s.behind
    ensures JobLifecycle.Inv(s.jobs) && UploadSystem.Inv(s.uploads) && BehindOk(s, id)
  {
    hide JobLifecycle.Inv, UploadSystem.Inv, BehindOk;
  }

  lemma BehindIsUploaded(s: State, id: string)
    requires id in s.behind && BehindOk(s, id)
    ensures HasUploaded(s.uploads, s.behind[id].u, s.behind[id].output)
  {
  }

  // What a finished record shows of an uploaded result.
  lemma {:induction false} RecordShows(s: State, j: Job)
    requires JobLifecycle.Inv(s.jobs) && j in s.jobs.jobs && j.id in s.behind && BehindOk(s, j.id)
    requires j.status == Succeeded
    ensures exists clean :: ShowsSlots(j.images, s.behind[j.id].output, clean)
  {
    hide Slot.Hosted, Slot.Blocks, Output.Failure, Output.Blobs, HasUploaded;
    var b := s.behind[j.id];
    assert JobLifecycle.Fits(j, s.jobs.procs[j.id], s.jobs.clock);
    assert IsCleaned(j.images, b.data);
    var clean :| j.images == JobLifecycle.StoredImages(b.data, clean);
    assert ShowsSlots(j.images, b.output, clean);
  }
}
