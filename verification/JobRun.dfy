/**
 The goroutine of one job against the in-memory job store, the object store and the ledger
 (runJob, finalizeJobResult and maybeCommunityAutoPublic in internal/api/generate.go), and the
 run of JobLifecycle that it is when nothing else happens in between.
 */
module JobRun {
  import opened Artifacts
  import opened Generation
  import opened GoStrings
  import opened Jobs
  import opened JobLifecycle
  import opened JobStore
  import opened ObjStore
  import opened OutputUpload
  import opened Quota

  // The records after publication: the owner of a succeeded job may have asked for it.
  ghost function Published(jobs: seq<Job>, id: string, autoPublic: string -> bool, now: int): seq<Job> {
    if exists j :: j in jobs && Publishes(j, id, autoPublic)
    then Updated(jobs, id, j => WithVisibility(j, "public", now))
    else jobs
  }

  predicate Publishes(j: Job, id: string, autoPublic: string -> bool) {
    j.id == id && j.userID != "" && j.status == Succeeded && autoPublic(j.userID)
  }

  ghost function AfterFinish(jobs: seq<Job>, id: string, o: Outcome, finished: int, clean: Sanitizer,
                             autoPublic: string -> bool, now: int): seq<Job>
  {
    var updated := Updated(jobs, id, Finalize(o, finished, clean));
    if o.Errored? then updated else Published(updated, id, autoPublic, now)
  }

  method MaybeCommunityAutoPublic(m: Memory, id: string, autoPublic: string -> bool, now: int)
    requires m.Valid()
    modifies m`jobs, m.cells
    ensures m.Valid() && m.jobs == Published(old(m.jobs), id, autoPublic, now)
  {
    hide DistinctIds, Indexes, WithVisibility, Updated;
    UniqueById(m.jobs);
    var j := m.Get(id);
    if j.None? || j.value.userID == "" || j.value.status != Succeeded {
      return;
    }
    if !autoPublic(j.value.userID) {
      return;
    }
    assert Publishes(j.value, id, autoPublic);
    var err := m.SetVisibility(id, j.value.userID, "public", now);
  }

  lemma UniqueById(jobs: seq<Job>)
    requires DistinctIds(jobs)
    ensures forall i, j :: i in jobs && j in jobs && i.id == j.id ==> i == j
    ensures forall j :: j in jobs ==> j.id in IdsOf(jobs)
  {
    DistinctPairwise(jobs);
    IdsOfMembers(jobs);
  }

  method FinalizeJobResult(m: Memory, id: string, o: Outcome, finished: int, clean: Sanitizer,
                           autoPublic: string -> bool, now: int)
    requires m.Valid()
    modifies m`jobs, m.cells
    ensures m.Valid() && m.jobs == AfterFinish(old(m.jobs), id, o, finished, clean, autoPublic, now)
  {
    hide DistinctIds, Updated, Published;
    var ok := m.Update(id, Finalize(o, finished, clean));
    if o.Errored? {
      return;
    }
    MaybeCommunityAutoPublic(m, id, autoPublic, now);
  }

  // What there is of a store and of a database.
  ghost function ObjectsOf(st: Fake?): map<string, Bytes>
    reads st
  {
    if st == null then map[] else st.objects
  }

  ghost function ViewOf(db: QuotaDb?): Option<Db>
    reads db
  {
    if db == null then None else Some(db.View())
  }

  // Writes a result's images to the disk.
  method KeepOnDisk(dir: Folder, h: Hosting, id: string, o: Outcome) returns (o': Outcome)
    requires o.Generated?
    modifies dir
    ensures o' == h.OnDisk(id, o) && dir.files == FilesLeft(h.disk, id, o.data, old(dir.files))
  {
    var out := new Response(Some(o.data));
    var err := MaterializeJobImages(dir, h.disk, id, out);
    if err.Some? {
      return Errored(APIErr("internal_server_error", "artifact_write", h.diskSays(err.value)));
    }
    return o.(data := out.data.value);
  }

  // Uploads a result's images for its owner.
  method Upload(st: Fake, db: QuotaDb?, h: Hosting, id: string, userID: string, o: Outcome) returns (o': Outcome)
    requires o.Generated? && userID != "" && (db != null ==> UniqueIds(db.ledger))
    modifies st, db
    ensures db != null ==> UniqueIds(db.ledger)
    ensures exists err ::
              && h.UploadLeaves(id, userID, o, err, o')
              && UploadStored(h.UploadOf(id, userID, o), old(st.objects), st.objects, old(ViewOf(db)), ViewOf(db), err)
  {
    hide UniqueIds, Ends, Leaves, Output.Blobs, Output.Tried;
    var out := new Response(Some(o.data));
    var err := MaterializeJobOutputs(st, db, out, userID, id, h.env, h.src);
    if err.Some? {
      LeavesAsItWas(h.UploadOf(id, userID, o), err, out.data.value);
      o' := Errored(h.UploadFault(err.value));
    } else {
      o' := o.(data := out.data.value);
    }
    assert h.UploadLeaves(id, userID, o, err, o');
    assert UploadStored(h.UploadOf(id, userID, o), old(st.objects), st.objects, old(ViewOf(db)), ViewOf(db), err);
  }

  lemma LeavesAsItWas(u: Output, err: Option<UploadError>, after: seq<Image>)
    requires err.Some? && Leaves(u, err, after)
    ensures after == u.data
  {
  }

  // The middle of the goroutine.
  method RehostOutputs(dir: Folder, st: Fake?, db: QuotaDb?, h: Hosting, id: string, userID: string, o: Outcome)
    returns (o': Outcome)
    requires (h.hasStore <==> st != null) && (db != null ==> UniqueIds(db.ledger))
    modifies dir, st, db
    ensures db != null ==> UniqueIds(db.ledger)
    ensures h.Rehosts(id, userID, o, o') && dir.files == h.FilesOf(id, userID, o, old(dir.files))
    ensures RehostStored(h, id, userID, o, o', old(ObjectsOf(st)), ObjectsOf(st), old(ViewOf(db)), ViewOf(db))
  {
    hide UniqueIds, Hosting.OnDisk, Hosting.UploadLeaves, Hosting.Mode, UploadStored, FilesLeft;
    o' := o;
    if o.Errored? {
      return;
    }
    var mode := h.Mode();
    if userID != "" && st != null && mode != "local" {
      if mode == "both" {
        o' := KeepOnDisk(dir, h, id, o);
      }
      if o'.Generated? {
        o' := Upload(st, db, h, id, userID, o');
      }
    } else {
      o' := KeepOnDisk(dir, h, id, o);
    }
  }

  /**
   A job's goroutine first marks the job running, then asks for images and moves them to where
   they are kept, then stores the result or the error, and last publishes a succeeded job whose
   owner asked for it; no other record changes. The owner is read from the store when the images
   are there.
   */
  method RunJob(m: Memory, dir: Folder, st: Fake?, db: QuotaDb?, id: string, now: int, answer: Answer,
                upstreamWire: string, h: Hosting, finished: int, clean: Sanitizer, autoPublic: string -> bool,
                published: int)
    returns (ghost userID: string, ghost o: Outcome)
    requires m.Valid() && (h.hasStore <==> st != null) && (db != null ==> UniqueIds(db.ledger))
    modifies m`jobs, m.cells, dir, st, db
    ensures m.Valid() && (db != null ==> UniqueIds(db.ledger))
    ensures IsOwner(Updated(old(m.jobs), id, MarkRunning(now)), id, userID)
    ensures h.Rehosts(id, userID, Executed(answer, upstreamWire), o)
    ensures dir.files == h.FilesOf(id, userID, Executed(answer, upstreamWire), old(dir.files))
    ensures RehostStored(h, id, userID, Executed(answer, upstreamWire), o, old(ObjectsOf(st)), ObjectsOf(st),
                         old(ViewOf(db)), ViewOf(db))
    ensures m.jobs == AfterFinish(Updated(old(m.jobs), id, MarkRunning(now)), id, o, finished, clean, autoPublic,
                                  published)
  {
    hide *;
    MarkStarted(m, id, now);
    var out := ExecuteImageGeneration(answer, upstreamWire);
    var owner := OwnerOf(m, id);
    userID := owner;
    out := RehostOutputs(dir, st, db, h, id, owner, out);
    o := out;
    FinalizeJobResult(m, id, out, finished, clean, autoPublic, published);
  }

  method MarkStarted(m: Memory, id: string, now: int)
    requires m.Valid()
    modifies m`jobs, m.cells
    ensures m.Valid() && m.cells == old(m.cells) && m.jobs == Updated(old(m.jobs), id, MarkRunning(now))
  {
    hide DistinctIds, Updated;
    var ok := m.Update(id, MarkRunning(now));
  }

  method OwnerOf(m: Memory, id: string) returns (userID: string)
    requires m.Valid()
    ensures IsOwner(m.jobs, id, userID)
  {
    hide DistinctIds, Indexes;
    UniqueById(m.jobs);
    var j := m.Get(id);
    userID := if j.Some? then j.value.userID else "";
  }

  /**
   Whatever a goroutine does, the other jobs are untouched, and its own job, if it is still
   stored, ends in a final state: succeeded with as many images as the provider answered, and at
   least one, or failed with a code.
   */
  lemma {:induction false} RunJobEffect(jobs: seq<Job>, id: string, now: int, answer: Answer, upstreamWire: string,
                                        h: Hosting, userID: string, o: Outcome, finished: int, clean: Sanitizer,
                                        autoPublic: string -> bool, published: int, i: nat)
    requires i < |jobs| && h.Rehosts(id, userID, Executed(answer, upstreamWire), o)
    ensures var after := AfterFinish(Updated(jobs, id, MarkRunning(now)), id, o, finished, clean, autoPublic,
                                     published);
            && |after| == |jobs| && after[i].id == jobs[i].id
            && (jobs[i].id != id ==> after[i] == jobs[i])
            && (jobs[i].id == id ==>
                  && after[i].startedAt == now && after[i].finishedAt == finished
                  && after[i].userID == jobs[i].userID && after[i].createdAt == jobs[i].createdAt
                  && (after[i].status == Status.Failed ==>
                      after[i].errorCode != "" && after[i].images == jobs[i].images)
                  && (after[i].status == Succeeded ==>
                        answer.Answered? && |after[i].images| == |answer.reply.images| > 0)
                  && after[i].IsTerminal())
  {
    hide WithVisibility, Finalize, MarkRunning, Hosting.Rehosts, Published, Updated, TrimSpace;
    RehostingKeepsSlots(h, id, userID, Executed(answer, upstreamWire), o);
    FinishedRecord(jobs[i], now, o, finished, clean);
    var finishedJobs := Updated(Updated(jobs, id, MarkRunning(now)), id, Finalize(o, finished, clean));
    PublishedRecord(finishedJobs, id, autoPublic, published, i);
  }

  // Publication changes one record, and nothing but its visibility.
  lemma {:induction false} PublishedRecord(jobs: seq<Job>, id: string, autoPublic: string -> bool, now: int, i: nat)
    requires i < |jobs|
    ensures var r := Published(jobs, id, autoPublic, now);
            && |r| == |jobs| && (jobs[i].id != id ==> r[i] == jobs[i])
            && r[i] == jobs[i].(visibility := r[i].visibility, communityListedAt := r[i].communityListedAt)
  {
    hide WithVisibility, Updated;
    VisibilityOnly(jobs[i], now);
  }

  // What the first and the last update make of a record.
  lemma FinishedRecord(j: Job, now: int, o: Outcome, finished: int, clean: Sanitizer)
    ensures var r := MarkRunning(now)(j);
            var d := Finalize(o, finished, clean)(r);
            && r.id == d.id == j.id && d.startedAt == now && d.finishedAt == finished
            && d.userID == j.userID && d.createdAt == j.createdAt && d.IsTerminal()
            && (d.status == Status.Failed ==> o.Errored? && d.errorCode != "" && d.images == j.images)
            && (d.status == Succeeded ==> o.Generated? && |d.images| == |o.data|)
  {
    hide ErrorCode, ErrorText;
  }

  lemma VisibilityOnly(j: Job, now: int)
    ensures WithVisibility(j, "public", now)
         == j.(visibility := "public", communityListedAt := WithVisibility(j, "public", now).communityListedAt)
  {
  }

  // Some consecutive steps.
  ghost predicate Leads(run: seq<State>, steps: seq<Step>, from: State, to: State) {
    && |run| == |steps| + 1 && run[0] == from && run[|run| - 1] == to
    && forall i :: 0 <= i < |steps| ==> Next(run[i], steps[i], run[i + 1])
  }

  // The goroutine's steps up to its last update.
  lemma {:induction false} RunsToFinish(s: State, id: string, answer: Answer, upstreamWire: string, h: Hosting,
                                        userID: string, o: Outcome, finished: int, clean: Sanitizer)
    returns (run: seq<State>, steps: seq<Step>, end: State)
    requires id in s.procs && s.procs[id].Spawned? && s.clock <= finished
    requires IsOwner(Updated(s.jobs, id, MarkRunning(s.clock)), id, userID)
    requires h.Rehosts(id, userID, Executed(answer, upstreamWire), o)
    ensures Leads(run, steps, s, end)
    ensures steps == [ReadStart(id), Start(id), Generate(id, answer, upstreamWire), Rehost(id, h, userID, o),
                      Tick(finished), ReadFinish(id), Finish(id, clean)]
    ensures end.jobs == Updated(Updated(s.jobs, id, MarkRunning(s.clock)), id, Finalize(o, finished, clean))
    ensures end.clock == finished && end.procs == s.procs[id := if o.Errored? then Ended else Finalized]
  {
    hide Leads, Executed, Hosting.Rehosts, IsOwner, Updated, MarkRunning, Finalize;
    var mid;
    run, steps, mid := RunsToImages(s, id, answer, upstreamWire, h, userID, o);
    var more, moreSteps;
    more, moreSteps, end := RunsFromImages(mid, id, s.clock, o, finished, clean);
    LeadsJoin(run, steps, more, moreSteps, s, mid, end);
    run, steps := run + more[1..], steps + moreSteps;
  }

  lemma {:induction false} RunsToImages(s: State, id: string, answer: Answer, upstreamWire: string, h: Hosting,
                                        userID: string, o: Outcome)
    returns (run: seq<State>, steps: seq<Step>, end: State)
    requires id in s.procs && s.procs[id].Spawned?
    requires IsOwner(Updated(s.jobs, id, MarkRunning(s.clock)), id, userID)
    requires h.Rehosts(id, userID, Executed(answer, upstreamWire), o)
    ensures Leads(run, steps, s, end)
    ensures steps == [ReadStart(id), Start(id), Generate(id, answer, upstreamWire), Rehost(id, h, userID, o)]
    ensures end == Moved(s.(jobs := Updated(s.jobs, id, MarkRunning(s.clock))), id, Rehosted(s.clock, o))
  {
    hide Executed, Hosting.Rehosts, IsOwner, Updated, MarkRunning;
    var now := s.clock;
    var s1 := Moved(s, id, Begun(now));
    var s2 := Moved(s.(jobs := Updated(s.jobs, id, MarkRunning(now))), id, Marked(now));
    var s3 := Moved(s2, id, Produced(now, Executed(answer, upstreamWire)));
    end := Moved(s2, id, Rehosted(now, o));
    run := [s, s1, s2, s3, end];
    steps := [ReadStart(id), Start(id), Generate(id, answer, upstreamWire), Rehost(id, h, userID, o)];
    assert Next(s, steps[0], s1) && Next(s1, steps[1], s2);
    assert Next(s2, steps[2], s3) && Next(s3, steps[3], end);
  }

  lemma {:induction false} RunsFromImages(s: State, id: string, now: int, o: Outcome, finished: int, clean: Sanitizer)
    returns (run: seq<State>, steps: seq<Step>, end: State)
    requires id in s.procs && s.procs[id] == Rehosted(now, o) && s.clock <= finished
    ensures Leads(run, steps, s, end)
    ensures steps == [Tick(finished), ReadFinish(id), Finish(id, clean)]
    ensures end == Moved(s.(clock := finished, jobs := Updated(s.jobs, id, Finalize(o, finished, clean))), id,
                         if o.Errored? then Ended else Finalized)
  {
    hide Updated, Finalize;
    var s1 := s.(clock := finished);
    var s2 := Moved(s1, id, Finishing(now, finished, o));
    var last := if o.Errored? then Ended else Finalized;
    end := Moved(s2.(jobs := Updated(s.jobs, id, Finalize(o, finished, clean))), id, last);
    run, steps := [s, s1, s2, end], [Tick(finished), ReadFinish(id), Finish(id, clean)];
    assert Next(s, steps[0], s1) && Next(s1, steps[1], s2) && Next(s2, steps[2], end);
  }

  // Reading the owner's settings, and publishing the job if they ask for it.
  lemma {:induction false} RunsToEnd(s: State, id: string, autoPublic: string -> bool, published: int)
    returns (run: seq<State>, steps: seq<Step>, end: State)
    requires id in s.procs && s.procs[id].Finalized? && s.clock <= published
    ensures Leads(run, steps, s, end)
    ensures end.jobs == Published(s.jobs, id, autoPublic, published) && end.procs == s.procs[id := Ended]
  {
    hide Updated, WithVisibility, Leads;
    if j :| j in s.jobs && Publishes(j, id, autoPublic) {
      run, steps, end := RunsToPublic(s, id, j, autoPublic, published);
    } else {
      end := Moved(s, id, Ended);
      run, steps := RunsUnlisted(s, id);
    }
  }

  lemma {:induction false} RunsUnlisted(s: State, id: string) returns (run: seq<State>, steps: seq<Step>)
    requires id in s.procs && s.procs[id].Finalized?
    ensures Leads(run, steps, s, Moved(s, id, Ended))
  {
    run, steps := [s, Moved(s, id, Ended)], [ReadSettings(id, false)];
    assert Next(s, steps[0], run[1]);
  }

  lemma PublishingIsVisible(jobs: seq<Job>, id: string, j: Job, autoPublic: string -> bool, now: int)
    requires j in jobs && Publishes(j, id, autoPublic)
    ensures VisibilityJobs(jobs, id, j.userID, "public", now) == Published(jobs, id, autoPublic, now)
  {
    hide WithVisibility;
  }

  lemma {:induction false} RunsToPublic(s: State, id: string, j: Job, autoPublic: string -> bool, published: int)
    returns (run: seq<State>, steps: seq<Step>, end: State)
    requires id in s.procs && s.procs[id].Finalized? && s.clock <= published
    requires j in s.jobs && Publishes(j, id, autoPublic)
    ensures Leads(run, steps, s, end)
    ensures end.jobs == Published(s.jobs, id, autoPublic, published) && end.procs == s.procs[id := Ended]
  {
    hide WithVisibility, VisibilityJobs, Published, Updated;
    PublishingIsVisible(s.jobs, id, j, autoPublic, published);
    var s1 := Moved(s, id, Publishing(j.userID));
    var s2 := s1.(clock := published);
    var jobs := VisibilityJobs(s.jobs, id, j.userID, "public", published);
    end := Moved(s2.(jobs := jobs), id, Ended);
    run, steps := [s, s1, s2, end], [ReadSettings(id, true), Tick(published), Publish(id)];
    assert Next(s, steps[0], s1) && Next(s1, steps[1], s2) && Next(s2, steps[2], end);
  }

  lemma LeadsJoin(a: seq<State>, sa: seq<Step>, b: seq<State>, sb: seq<Step>, from: State, mid: State, to: State)
    requires Leads(a, sa, from, mid) && Leads(b, sb, mid, to)
    ensures |b| > 0 && Leads(a + b[1..], sa + sb, from, to)
  {
    hide Next;
    var r, t := a + b[1..], sa + sb;
    forall i | 0 <= i < |t|
      ensures Next(r[i], t[i], r[i + 1])
    {
      if i < |sa| {
        assert Next(a[i], sa[i], a[i + 1]);
      } else {
        assert Next(b[i - |sa|], sb[i - |sa|], b[i - |sa| + 1]);
      }
    }
  }

  /**
   What RunJob makes of the records is what a run of the step system makes of them: the steps of
   one goroutine, one after the other, with the clock moving on in between.
   */
  lemma {:induction false} RunJobIsARun(s: State, id: string, answer: Answer, upstreamWire: string, h: Hosting,
                                        userID: string, o: Outcome, finished: int, clean: Sanitizer,
                                        autoPublic: string -> bool, published: int)
    returns (run: seq<State>, steps: seq<Step>, end: State)
    requires id in s.procs && s.procs[id].Spawned? && s.clock <= finished <= published
    requires IsOwner(Updated(s.jobs, id, MarkRunning(s.clock)), id, userID)
    requires h.Rehosts(id, userID, Executed(answer, upstreamWire), o)
    ensures Leads(run, steps, s, end) && end.procs == s.procs[id := Ended]
    ensures end.jobs == AfterFinish(Updated(s.jobs, id, MarkRunning(s.clock)), id, o, finished, clean, autoPublic,
                                    published)
  {
    hide Leads, Executed, Hosting.Rehosts, IsOwner, Updated, Finalize, MarkRunning, Published;
    run, steps, end := RunsToFinish(s, id, answer, upstreamWire, h, userID, o, finished, clean);
    if o.Generated? {
      var mid := end;
      var more, moreSteps;
      more, moreSteps, end := RunsToEnd(mid, id, autoPublic, published);
      LeadsJoin(run, steps, more, moreSteps, s, mid, end);
      run, steps := run + more[1..], steps + moreSteps;
    }
  }
}
