/**
 Each upload of internal/api/oss_materialize.go, successful or not, is a run of the step system
 of UploadSystem: begin, one attempt for each object, then the append or the failing step, and,
 when anything has failed, one delete for each object tried. What is proved of all
 interleavings there holds of these uploads.
 */
module UploadRuns {
  import opened GoStrings
  import opened ObjStore
  import opened OutputUpload
  import opened Quota
  import opened UploadSystem
  import ReferenceUpload
  import TemplateUpload

  // The sizes of the objects a store holds.
  ghost function Sizes(objects: map<string, Bytes>): map<string, nat> {
    map k | k in objects :: |objects[k]|
  }

  // The sizes after putting the blobs one after the other.
  ghost function Grown(sizes: map<string, nat>, blobs: seq<Blob>): map<string, nat> {
    if blobs == [] then sizes
    else Grown(sizes, blobs[..|blobs| - 1])[blobs[|blobs| - 1].key := |blobs[|blobs| - 1].body|]
  }

  lemma {:induction false} GrownIsStored(objects: map<string, Bytes>, blobs: seq<Blob>)
    ensures Sizes(Stored(objects, blobs)) == Grown(Sizes(objects), blobs)
  {
    if blobs != [] {
      GrownIsStored(objects, blobs[..|blobs| - 1]);
    }
  }

  lemma {:induction false} GrownKeys(sizes: map<string, nat>, blobs: seq<Blob>)
    ensures Grown(sizes, blobs).Keys == sizes.Keys + KeysOf(blobs)
    ensures forall k :: k in sizes && k !in KeysOf(blobs) ==> Grown(sizes, blobs)[k] == sizes[k]
  {
    if blobs != [] {
      GrownKeys(sizes, blobs[..|blobs| - 1]);
    }
  }

  // The next object's key is new, and its size is the one announced.
  lemma NextBlob(all: seq<Blob>, lost: set<string>, n: nat)
    requires DistinctBlobs(all) && n < |all|
    ensures all[n].key !in KeysOf(all[..n]) && KeysOf(all[..n + 1]) == KeysOf(all[..n]) + {all[n].key}
    ensures all[n].key in Grown(map[], all) && Grown(map[], all)[all[n].key] == |all[n].body|
    ensures Kept(all[..n + 1], lost) == Kept(all[..n], lost) + if all[n].key in lost then [] else [all[n]]
  {
    assert all[..n + 1][..n] == all[..n];
    KeyIn(all[..n], all[n].key);
    SizeOf(all, n);
  }

  lemma {:induction false} SizeOf(blobs: seq<Blob>, i: nat)
    requires DistinctBlobs(blobs) && i < |blobs|
    ensures blobs[i].key in Grown(map[], blobs) && Grown(map[], blobs)[blobs[i].key] == |blobs[i].body|
  {
    var n := |blobs| - 1;
    if i < n {
      assert blobs[i].key != blobs[n].key && blobs[..n][i] == blobs[i];
      SizeOf(blobs[..n], i);
    }
  }

  lemma {:induction false} PrefixSum(blobs: seq<Blob>, n: nat)
    requires n <= |blobs|
    ensures 0 <= Sum(RowsOf(blobs[..n])) <= Sum(RowsOf(blobs))
  {
    if n == |blobs| {
      assert blobs[..n] == blobs;
      assert forall i :: 0 <= i < |blobs| ==> RowsOf(blobs)[i].byteSize >= 0;
      SumNonNegative(RowsOf(blobs));
    } else {
      var m := |blobs| - 1;
      PrefixSum(blobs[..m], n);
      assert blobs[..m][..n] == blobs[..n];
      assert RowsOf(blobs)[..m] == RowsOf(blobs[..m]);
    }
  }

  lemma {:induction false} KeptSum(all: seq<Blob>, lost: set<string>, n: nat)
    requires n <= |all| && Sum(RowsOf(all)) <= MAX64
    ensures Sum(RowsOf(Kept(all[..n], lost))) <= MAX64
  {
    PrefixSum(all, n);
    KeptSumAtMost(all[..n], lost);
  }

  lemma {:induction false} KeptSumAtMost(blobs: seq<Blob>, lost: set<string>)
    ensures Sum(RowsOf(Kept(blobs, lost))) <= Sum(RowsOf(blobs))
  {
    if blobs != [] {
      var n := |blobs| - 1;
      KeptSumAtMost(blobs[..n], lost);
      assert RowsOf(blobs)[..n] == RowsOf(blobs[..n]);
      var kept := Kept(blobs[..n], lost);
      assert RowsOf(kept + [blobs[n]])[..|kept|] == RowsOf(kept);
      assert kept + [] == kept;
    }
  }

  lemma {:induction false} KeptAll(blobs: seq<Blob>)
    ensures Kept(blobs, {}) == blobs
  {
    if blobs != [] {
      KeptAll(blobs[..|blobs| - 1]);
    }
  }

  // What trying to put some objects needs to be a run: new keys, and bytes that fit in memory.
  ghost predicate CanRun(s: State, u: nat, userID: string, all: seq<Blob>) {
    && u !in s.uploads && userID != "" && userID in s.db.accounts
    && DistinctBlobs(all) && KeysOf(all) !! s.owner.Keys && KeysOf(all) !! s.objects.Keys
    && Sum(RowsOf(all)) <= MAX64
  }

  // An upload that has tried some objects and put some.
  ghost function Announced(userID: string, all: seq<Blob>, lost: set<string>, tried: set<string>, put: seq<Blob>,
                           phase: Phase): UploadSystem.Upload
  {
    UploadSystem.Upload(userID, Grown(map[], all), lost, tried, RowsOf(put), phase)
  }

  ghost function StateOf(s: State, u: nat, objects: map<string, nat>, db: Db, all: seq<Blob>,
                         up: UploadSystem.Upload): State
  {
    State(objects, db, s.uploads[u := up], s.owner + map k | k in Grown(map[], all) :: u)
  }

  // After the first n attempts.
  ghost function Trying(s: State, u: nat, userID: string, all: seq<Blob>, lost: set<string>, n: nat): State
    requires n <= |all|
  {
    var put := Kept(all[..n], lost);
    StateOf(s, u, Grown(s.objects, put), s.db, all, Announced(userID, all, lost, KeysOf(all[..n]), put, Putting))
  }

  lemma BeginStep(s: State, u: nat, userID: string, all: seq<Blob>, lost: set<string>)
    requires CanRun(s, u, userID, all)
    ensures Next(s, Begin(u, userID, Grown(map[], all), lost, None), Trying(s, u, userID, all, lost, 0))
  {
    GrownKeys(map[], all);
    assert all[..0] == [];
  }

  // The attempt at one object, which fails when it may be lost.
  function Attempt(u: nat, lost: set<string>, b: Blob): Step {
    if b.key in lost then PutFails(u, b.key) else Put(u, RowOf(b))
  }

  lemma AttemptStep(s: State, u: nat, userID: string, all: seq<Blob>, lost: set<string>, n: nat)
    requires CanRun(s, u, userID, all) && n < |all|
    ensures Next(Trying(s, u, userID, all, lost, n), Attempt(u, lost, all[n]), Trying(s, u, userID, all, lost, n + 1))
  {
    hide CanRun, Next, Trying, Kept;
    if all[n].key in lost {
      LostStep(s, u, userID, all, lost, n);
    } else {
      PutStep(s, u, userID, all, lost, n);
    }
  }

  lemma LostStep(s: State, u: nat, userID: string, all: seq<Blob>, lost: set<string>, n: nat)
    requires CanRun(s, u, userID, all) && n < |all| && all[n].key in lost
    ensures Next(Trying(s, u, userID, all, lost, n), Attempt(u, lost, all[n]), Trying(s, u, userID, all, lost, n + 1))
  {
    hide KeysOf, RowsOf, DistinctBlobs, Sum, Kept, Grown;
    NextBlob(all, lost, n);
    assert Kept(all[..n], lost) + [] == Kept(all[..n], lost);
  }

  lemma PutStep(s: State, u: nat, userID: string, all: seq<Blob>, lost: set<string>, n: nat)
    requires CanRun(s, u, userID, all) && n < |all| && all[n].key !in lost
    ensures Next(Trying(s, u, userID, all, lost, n), Attempt(u, lost, all[n]), Trying(s, u, userID, all, lost, n + 1))
  {
    hide KeysOf, RowsOf, DistinctBlobs, Sum, Kept, Grown;
    NextBlob(all, lost, n);
    KeptSum(all, lost, n + 1);
    StoredAppend(map[], Kept(all[..n], lost), all[n]);
    GrownNext(s.objects, Kept(all[..n], lost), all[n]);
  }

  lemma GrownNext(sizes: map<string, nat>, blobs: seq<Blob>, b: Blob)
    ensures Grown(sizes, blobs + [b]) == Grown(sizes, blobs)[b.key := |b.body|]
  {
    assert (blobs + [b])[..|blobs|] == blobs;
  }

  ghost predicate Runs(run: seq<State>, steps: seq<Step>, from: State, to: State) {
    && |run| == |steps| + 1 && run[0] == from && run[|run| - 1] == to
    && forall i :: 0 <= i < |steps| ==> Next(run[i], steps[i], run[i + 1])
  }

  lemma RunOn(run: seq<State>, steps: seq<Step>, from: State, mid: State, step: Step, to: State)
    requires Runs(run, steps, from, mid) && Next(mid, step, to)
    ensures Runs(run + [to], steps + [step], from, to)
  {
    hide Next;
    var r, t := run + [to], steps + [step];
    forall i | 0 <= i < |t|
      ensures Next(r[i], t[i], r[i + 1])
    {
      if i < |steps| {
        assert Next(run[i], steps[i], run[i + 1]);
      }
    }
  }

  lemma NoStep(s: State)
    ensures Runs([s], [], s, s)
  {
  }

  lemma {:induction false} AttemptsRun(s: State, u: nat, userID: string, all: seq<Blob>, lost: set<string>, n: nat)
    returns (run: seq<State>, steps: seq<Step>)
    requires CanRun(s, u, userID, all) && n <= |all|
    ensures Runs(run, steps, s, Trying(s, u, userID, all, lost, n))
  {
    hide *;
    if n == 0 {
      BeginStep(s, u, userID, all, lost);
      NoStep(s);
      var begin, to := Begin(u, userID, Grown(map[], all), lost, None), Trying(s, u, userID, all, lost, 0);
      RunOn([s], [], s, s, begin, to);
      run, steps := [s] + [to], [] + [begin];
    } else {
      run, steps := AttemptsRun(s, u, userID, all, lost, n - 1);
      AttemptStep(s, u, userID, all, lost, n - 1);
      var attempt, to := Attempt(u, lost, all[n - 1]), Trying(s, u, userID, all, lost, n);
      RunOn(run, steps, s, Trying(s, u, userID, all, lost, n - 1), attempt, to);
      run, steps := run + [to], steps + [attempt];
    }
  }

  lemma JoinRuns(a: seq<State>, sa: seq<Step>, b: seq<State>, sb: seq<Step>, from: State, mid: State, to: State)
    requires Runs(a, sa, from, mid) && Runs(b, sb, mid, to)
    ensures |b| > 0 && Runs(a + b[1..], sa + sb, from, to)
  {
    hide Next;
    var r, t := a + b[1..], sa + sb;
    forall i | 0 <= i < |t|
      ensures Next(r[i], t[i], r[i + 1])
    {
      if i < |sa| {
        assert Next(a[i], sa[i], a[i + 1]);
      } else {
        assert Next(b[i - |sa|], sb[i - |sa|], b[i - |sa| + 1]);
      }
    }
  }

  // Everything tried is about to be deleted.
  ghost predicate TakesBack(mid: State, u: nat, all: seq<Blob>) {
    u in mid.uploads && mid.uploads[u].phase == Compensating(KeysOf(all)) && DistinctBlobs(all)
  }

  // After the first n deletes.
  ghost function Deleting(mid: State, u: nat, all: seq<Blob>, n: nat): State
    requires TakesBack(mid, u, all) && n <= |all|
  {
    var left := KeysOf(all) - KeysOf(all[..n]);
    With(mid.(objects := mid.objects - KeysOf(all[..n])), u, mid.uploads[u].(phase := Compensating(left)))
  }

  lemma DeleteStep(mid: State, u: nat, all: seq<Blob>, n: nat)
    requires TakesBack(mid, u, all) && n < |all|
    ensures Next(Deleting(mid, u, all, n), Delete(u, all[n].key), Deleting(mid, u, all, n + 1))
  {
    hide DistinctBlobs, Grown, KeysOf;
    NextBlob(all, {}, n);
    KeyIn(all, all[n].key);
    var done, key := KeysOf(all[..n]), all[n].key;
    assert (mid.objects - done) - {key} == mid.objects - (done + {key});
    assert (KeysOf(all) - done) - {key} == KeysOf(all) - (done + {key});
  }

  lemma {:induction false} DeletesRun(mid: State, u: nat, all: seq<Blob>, n: nat)
    returns (run: seq<State>, steps: seq<Step>)
    requires TakesBack(mid, u, all) && n <= |all|
    ensures Runs(run, steps, mid, Deleting(mid, u, all, n))
  {
    if n == 0 {
      NoneDeleted(mid, u, all);
      NoStep(mid);
      run, steps := [mid], [];
    } else {
      hide *;
      run, steps := DeletesRun(mid, u, all, n - 1);
      DeleteStep(mid, u, all, n - 1);
      var to := Deleting(mid, u, all, n);
      RunOn(run, steps, mid, Deleting(mid, u, all, n - 1), Delete(u, all[n - 1].key), to);
      run, steps := run + [to], steps + [Delete(u, all[n - 1].key)];
    }
  }

  lemma NoneDeleted(mid: State, u: nat, all: seq<Blob>)
    requires TakesBack(mid, u, all)
    ensures Deleting(mid, u, all, 0) == mid
  {
    assert all[..0] == [] && KeysOf([]) == {};
    assert mid.objects - {} == mid.objects && KeysOf(all) - {} == KeysOf(all);
  }

  // The state after taking everything back.
  ghost function TakenBack(mid: State, u: nat, all: seq<Blob>): State
    requires TakesBack(mid, u, all)
  {
    With(mid.(objects := mid.objects - KeysOf(all)), u, mid.uploads[u].(phase := Aborted))
  }

  lemma GiveUpStep(mid: State, u: nat, all: seq<Blob>)
    requires TakesBack(mid, u, all)
    ensures Next(Deleting(mid, u, all, |all|), GiveUp(u), TakenBack(mid, u, all))
  {
    assert all[..|all|] == all && KeysOf(all) - KeysOf(all) == {};
  }

  lemma {:induction false} TakingBackRuns(mid: State, u: nat, all: seq<Blob>)
    returns (run: seq<State>, steps: seq<Step>)
    requires TakesBack(mid, u, all)
    ensures Runs(run, steps, mid, TakenBack(mid, u, all))
  {
    hide *;
    run, steps := DeletesRun(mid, u, all, |all|);
    GiveUpStep(mid, u, all);
    RunOn(run, steps, mid, Deleting(mid, u, all, |all|), GiveUp(u), TakenBack(mid, u, all));
    run, steps := run + [TakenBack(mid, u, all)], steps + [GiveUp(u)];
  }

  // How the attempts end: everything has been tried and is recorded, or the upload stops between
  // two objects, or the last object is not put, or it is put and its URL cannot be resolved.
  datatype Ending =
    | Records(db: Db, now: int, err: Option<AppendError>)
    | Stops
    | NotStored
    | NoAddress
  {
    predicate Commits() {
      Records? && err.None?
    }
  }

  ghost predicate EndsWith(s: State, userID: string, all: seq<Blob>, lost: set<string>, ending: Ending) {
    match ending
    case Records(db, now, err) => AppendOutcome(s.db, db, userID, RowsOf(Kept(all, lost)), now, err)
    case Stops => true
    case _ => all != [] && all[|all| - 1].key !in lost
  }

  // The attempts before the ending's own step, and that step.
  function Before(all: seq<Blob>, ending: Ending): (n: nat)
    ensures n <= |all|
  {
    if all != [] && (ending.NotStored? || ending.NoAddress?) then |all| - 1 else |all|
  }

  function LastStep(u: nat, all: seq<Blob>, ending: Ending): Step
    requires ending.NotStored? || ending.NoAddress? ==> all != []
  {
    match ending
    case Records(_, now, err) => Append(u, now, err)
    case Stops => Fails(u)
    case NotStored => PutFails(u, all[|all| - 1].key)
    case NoAddress => PutThenFails(u, all[|all| - 1].key)
  }

  // The state after that step.
  ghost function Ended(s: State, u: nat, userID: string, all: seq<Blob>, lost: set<string>, ending: Ending): State {
    var put := Kept(all[..Before(all, ending)], lost);
    var objects := Grown(s.objects, if ending.NoAddress? && all != [] then put + [all[|all| - 1]] else put);
    StateOf(s, u, objects, if ending.Records? then ending.db else s.db, all,
            Announced(userID, all, lost, KeysOf(all), put,
                      if ending.Commits() then Committed else Compensating(KeysOf(all))))
  }

  lemma AppendStep(s: State, u: nat, userID: string, all: seq<Blob>, lost: set<string>, ending: Ending)
    requires CanRun(s, u, userID, all) && EndsWith(s, userID, all, lost, ending) && (ending.Records? || ending.Stops?)
    ensures Next(Trying(s, u, userID, all, lost, |all|), LastStep(u, all, ending),
                 Ended(s, u, userID, all, lost, ending))
  {
    hide KeysOf, RowsOf, DistinctBlobs, AppendOutcome, Grown, Kept, Sum;
    assert all[..|all|] == all;
  }

  lemma NotStoredStep(s: State, u: nat, userID: string, all: seq<Blob>, lost: set<string>)
    requires CanRun(s, u, userID, all) && all != [] && all[|all| - 1].key !in lost
    ensures Next(Trying(s, u, userID, all, lost, |all| - 1), PutFails(u, all[|all| - 1].key),
                 Ended(s, u, userID, all, lost, NotStored))
  {
    hide KeysOf, RowsOf, DistinctBlobs, Grown, Kept, Sum;
    NextBlob(all, lost, |all| - 1);
    assert all[..|all| - 1 + 1] == all;
  }

  lemma NoAddressStep(s: State, u: nat, userID: string, all: seq<Blob>, lost: set<string>)
    requires CanRun(s, u, userID, all) && all != []
    ensures Next(Trying(s, u, userID, all, lost, |all| - 1), PutThenFails(u, all[|all| - 1].key),
                 Ended(s, u, userID, all, lost, NoAddress))
  {
    hide KeysOf, RowsOf, DistinctBlobs, Grown, Kept, Sum;
    var n := |all| - 1;
    NextBlob(all, lost, n);
    assert all[..n + 1] == all;
    GrownNext(s.objects, Kept(all[..n], lost), all[n]);
  }

  lemma EndingStep(s: State, u: nat, userID: string, all: seq<Blob>, lost: set<string>, ending: Ending)
    requires CanRun(s, u, userID, all) && EndsWith(s, userID, all, lost, ending)
    ensures ending.NotStored? || ending.NoAddress? ==> all != []
    ensures Next(Trying(s, u, userID, all, lost, Before(all, ending)), LastStep(u, all, ending),
                 Ended(s, u, userID, all, lost, ending))
  {
    hide CanRun, Next, Trying, Ended;
    if ending.NotStored? {
      NotStoredStep(s, u, userID, all, lost);
    } else if ending.NoAddress? {
      NoAddressStep(s, u, userID, all, lost);
    } else {
      AppendStep(s, u, userID, all, lost, ending);
    }
  }

  // Taking back what was put leaves the store as at the start.
  lemma {:induction false} TakenBackExactly(s: State, u: nat, userID: string, all: seq<Blob>, lost: set<string>,
                                            ending: Ending)
    requires CanRun(s, u, userID, all) && EndsWith(s, userID, all, lost, ending)
    ensures var end := Ended(s, u, userID, all, lost, ending);
            && end.uploads[u].userID == userID && (ending.Commits() ==> end.uploads[u].rows == RowsOf(Kept(all, lost)))
            && if ending.Commits() then end.objects == Grown(s.objects, Kept(all, lost)) && end.db == ending.db
               else TakesBack(end, u, all) && TakenBack(end, u, all).objects == s.objects && end.db == s.db
  {
    hide RowsOf, DistinctBlobs, Grown, Sum, Kept, KeysOf;
    assert all[..|all|] == all;
    var n := Before(all, ending);
    var put := Kept(all[..n], lost);
    var added := if ending.NoAddress? && all != [] then put + [all[|all| - 1]] else put;
    KeptMembers(all[..n], lost);
    PutAreTried(all, added);
    GrownKeys(s.objects, added);
    assert !ending.Commits() ==> Grown(s.objects, added) - KeysOf(all) == s.objects;
  }

  lemma {:induction false} PutAreTried(all: seq<Blob>, added: seq<Blob>)
    requires forall b :: b in added ==> b in all
    ensures forall k :: k in KeysOf(added) ==> k in KeysOf(all)
  {
    hide KeysOf;
    forall k | k in KeysOf(added)
      ensures k in KeysOf(all)
    {
      KeyIn(added, k);
      var i :| 0 <= i < |added| && added[i].key == k;
      assert added[i] in all;
      KeyIn(all, k);
    }
  }

  /**
   However an upload ends, it is a run of the step system. If its rows are recorded it ends
   committed, with its objects in the store; otherwise it ends aborted, with the store and the
   database as at the start.
   */
  lemma UploadIsARun(s: State, u: nat, userID: string, all: seq<Blob>, lost: set<string>, ending: Ending)
    returns (run: seq<State>, steps: seq<Step>, end: State)
    requires CanRun(s, u, userID, all) && EndsWith(s, userID, all, lost, ending)
    ensures Runs(run, steps, s, end)
    ensures u in end.uploads && end.uploads[u].phase == if ending.Commits() then Committed else Aborted
    ensures end.uploads[u].userID == userID
    ensures ending.Commits() ==> end.uploads[u].rows == RowsOf(Kept(all, lost))
    ensures if ending.Commits() then end.objects == Grown(s.objects, Kept(all, lost)) && end.db == ending.db
            else end.objects == s.objects && end.db == s.db
  {
    hide Next, CanRun, Runs, EndsWith, Trying, LastStep;
    var n, mid := Before(all, ending), Ended(s, u, userID, all, lost, ending);
    run, steps := AttemptsRun(s, u, userID, all, lost, n);
    EndingStep(s, u, userID, all, lost, ending);
    RunOn(run, steps, s, Trying(s, u, userID, all, lost, n), LastStep(u, all, ending), mid);
    run, steps := run + [mid], steps + [LastStep(u, all, ending)];
    TakenBackExactly(s, u, userID, all, lost, ending);
    if ending.Commits() {
      end := mid;
    } else {
      end := TakenBack(mid, u, all);
      var more, moreSteps := TakingBackRuns(mid, u, all);
      JoinRuns(run, steps, more, moreSteps, s, mid, end);
      run, steps := run + more[1..], steps + moreSteps;
    }
  }

  // The ending that belongs to how an upload fails, or to how its rows are recorded.
  function EndingOf(failure: Option<UploadError>, db: Db, now: int, err: Option<UploadError>): Ending {
    if failure.None? then Records(db, now, if err.Some? && err.value.Ledger? then Some(err.value.cause) else None)
    else if failure.value.PutFailed? then NotStored
    else if failure.value.NoURL? then NoAddress
    else Stops
  }

  // An upload that ends as the code's uploads do is a run.
  lemma {:induction false} EndedUploadIsARun(s: State, u: nat, userID: string, all: seq<Blob>, lost: set<string>,
                                             rows: seq<LedgerRow>, failure: Option<UploadError>, db: Db, now: int,
                                             err: Option<UploadError>)
    returns (run: seq<State>, steps: seq<Step>, end: State)
    requires CanRun(s, u, userID, all) && Ends(s.db, db, userID, rows, now, failure, err)
    requires failure.None? ==> rows == RowsOf(Kept(all, lost))
    requires failure.Some? && (failure.value.PutFailed? || failure.value.NoURL?) ==>
               all != [] && all[|all| - 1].key !in lost
    ensures Runs(run, steps, s, end) && end.db == db
    ensures u in end.uploads && end.uploads[u].phase == if err.None? then Committed else Aborted
    ensures end.uploads[u].userID == userID && (err.None? ==> end.uploads[u].rows == RowsOf(Kept(all, lost)))
    ensures end.objects == if err.None? then Grown(s.objects, Kept(all, lost)) else s.objects
  {
    hide CanRun, Runs, Grown, Kept, RowsOf, Extended, UniqueIds, WrapSum;
    run, steps, end := UploadIsARun(s, u, userID, all, lost, EndingOf(failure, db, now, err));
  }

  // The same for the sizes of what a store holds.
  lemma {:induction false} StoreEndsSo(s: State, objects: map<string, Bytes>, blobs: seq<Blob>)
    requires s.objects == Sizes(objects)
    ensures Grown(s.objects, blobs) == Sizes(Stored(objects, blobs))
  {
    GrownIsStored(objects, blobs);
  }

  lemma NewBlobs<V>(blobs: seq<Blob>, before: map<string, V>)
    requires forall b :: b in blobs ==> b.key !in before
    ensures KeysOf(blobs) !! before.Keys
  {
    hide KeysOf;
    forall k | k in KeysOf(blobs)
      ensures k !in before
    {
      KeyIn(blobs, k);
      var i :| 0 <= i < |blobs| && blobs[i].key == k;
      assert blobs[i] in blobs;
    }
  }

  // A user's upload that has not begun.
  ghost predicate Starts(s: State, u: nat, userID: string, objects: map<string, Bytes>, all: seq<Blob>) {
    && u !in s.uploads && userID != "" && userID in s.db.accounts
    && s.objects == Sizes(objects) && Sum(RowsOf(all)) <= MAX64
  }

  lemma StartsCanRun(s: State, u: nat, userID: string, objects: map<string, Bytes>, all: seq<Blob>)
    requires Starts(s, u, userID, objects, all) && DistinctBlobs(all)
    requires KeysOf(all) !! objects.Keys && KeysOf(all) !! s.owner.Keys
    ensures CanRun(s, u, userID, all)
  {
    hide DistinctBlobs, KeysOf, RowsOf, Sum;
  }

  /**
   The upload of a job's images is a run, whichever slot makes it fail: it ends committed or
   aborted, in the store and the database that the upload leaves.
   */
  lemma {:induction false} OutputIsARun(s: State, u: nat, o: Output, objects: map<string, Bytes>, db: Db, now: int,
                                        err: Option<UploadError>)
    returns (run: seq<State>, steps: seq<Step>, end: State)
    requires Starts(s, u, o.userID, objects, o.Tried())
    requires FreshJob(objects, o.userID, o.jobID) && FreshJob(s.owner, o.userID, o.jobID)
    requires Ends(s.db, db, o.userID, RowsOf(o.Blobs(|o.data|)), now, o.Failure(), err)
    ensures Runs(run, steps, s, end) && end.db == db
    ensures u in end.uploads && end.uploads[u].phase == if err.None? then Committed else Aborted
    ensures end.uploads[u].userID == o.userID
    ensures err.None? ==> end.uploads[u].rows == RowsOf(o.Blobs(|o.data|))
    ensures end.objects == Sizes(if err.None? then Stored(objects, o.Blobs(|o.data|)) else objects - KeysOf(o.Tried()))
  {
    hide Starts, Runs, Ends, CanRun, RowsOf, FreshJob, Grown, Sizes, Kept, KeysOf, Stored, DistinctBlobs, NamedIn;
    hide Output.Tries, Output.Lost, Output.Blobs, Slot.Fault;
    var n := o.SlotsTried();
    TriesAreDistinct(o, n);
    NamedBlobsAreNew(o, objects);
    NamedBlobsAreNew(o, s.owner);
    RestoredExactly(o, objects);
    StartsCanRun(s, u, o.userID, objects, o.Tried());
    BlobsAreKept(o, n);
    if o.Failure().Some? && !o.Failure().value.BadImage? {
      FailsAtLast(o);
    }
    Unfailing(o, s.db, db, now, err);
    run, steps, end := EndedUploadIsARun(s, u, o.userID, o.Tried(), o.Lost(n), RowsOf(o.Blobs(|o.data|)), o.Failure(),
                                         db, now, err);
    StartSizes(s, u, o.userID, objects, o.Tried());
    StoreEndsSo(s, objects, o.Blobs(n));
  }

  lemma StartSizes(s: State, u: nat, userID: string, objects: map<string, Bytes>, all: seq<Blob>)
    requires Starts(s, u, userID, objects, all)
    ensures s.objects == Sizes(objects)
  {
  }

  lemma Unfailing(o: Output, before: Db, db: Db, now: int, err: Option<UploadError>)
    requires Ends(before, db, o.userID, RowsOf(o.Blobs(|o.data|)), now, o.Failure(), err)
    ensures o.Failure().None? ==> o.SlotsTried() == |o.data|
    ensures err.None? ==> o.Failure().None?
  {
    hide AppendOutcome, RowsOf, Output.Blobs, Slot.Fault, Slot.Blocks;
    FirstBlockedIs(o);
    if o.FirstBlocked() < |o.data| {
      FaultWhenBlocked(o.At(o.FirstBlocked()));
    }
  }

  lemma FaultWhenBlocked(s: Slot)
    requires s.Blocks()
    ensures s.Fault().Some?
  {
  }

  lemma NamedBlobsAreNew<V>(o: Output, before: map<string, V>)
    requires FreshJob(before, o.userID, o.jobID)
    ensures KeysOf(o.Tried()) !! before.Keys
  {
    hide NamedIn, FreshJob, Output.Tries, Output.Lost;
    var n := o.SlotsTried();
    TriesAreNamed(o, n);
    forall b | b in o.Tried()
      ensures b.key !in before
    {
      NamedIsNew(b.key, o.userID, o.jobID, n, before);
    }
    NewBlobs(o.Tried(), before);
  }

  /** The same for a user's decoded reference images, whichever of them makes the upload fail. */
  lemma {:induction false} ReferenceIsARun(s: State, u: nat, r: ReferenceUpload.Upload, objects: map<string, Bytes>,
                                           db: Db, now: int, err: Option<UploadError>)
    returns (run: seq<State>, steps: seq<Step>, end: State)
    requires r.Decodes() && Starts(s, u, r.userID, objects, r.Tried())
    requires ReferenceUpload.FreshDraws(r.env, r.userID, objects)
    requires ReferenceUpload.FreshDraws(r.env, r.userID, s.owner)
    requires Ends(s.db, db, r.userID, r.Rows(), now, r.Failure(), err)
    ensures Runs(run, steps, s, end) && end.db == db
    ensures u in end.uploads && end.uploads[u].phase == if err.None? then Committed else Aborted
    ensures err.None? ==> r.Succeeds()
    ensures end.objects == Sizes(if err.None? then Stored(objects, r.Blobs()) else objects)
  {
    hide Starts, Runs, Ends, CanRun, RowsOf, Grown, Sizes, Kept, KeysOf, Stored, DistinctBlobs;
    hide ReferenceUpload.FreshDraws;
    hide ReferenceUpload.Upload.Works, ReferenceUpload.Upload.Decodes, ReferenceUpload.Upload.Rows;
    hide ReferenceUpload.Upload.Tried, ReferenceUpload.Upload.Failure, ReferenceUpload.Upload.Succeeds;
    ReferenceUpload.TriedAreNew(r, objects);
    ReferenceUpload.TriedAreNew(r, s.owner);
    NewBlobs(r.Tried(), objects);
    NewBlobs(r.Tried(), s.owner);
    StartsCanRun(s, u, r.userID, objects, r.Tried());
    KeptAll(r.Tried());
    ReferenceEnds(r, s.db, db, now, err, objects);
    run, steps, end := EndedUploadIsARun(s, u, r.userID, r.Tried(), {}, r.Rows(), r.Failure(), db, now, err);
    StartSizes(s, u, r.userID, objects, r.Tried());
    StoreEndsSo(s, objects, r.Tried());
  }

  lemma ReferenceEnds(r: ReferenceUpload.Upload, before: Db, db: Db, now: int, err: Option<UploadError>,
                      objects: map<string, Bytes>)
    requires r.Decodes() && Ends(before, db, r.userID, r.Rows(), now, r.Failure(), err)
    requires ReferenceUpload.FreshDraws(r.env, r.userID, objects)
    ensures err.None? ==> r.Failure().None?
    ensures r.Failure().None? ==> r.Succeeds() && r.Tried() == r.Blobs() && r.Rows() == RowsOf(r.Tried())
    ensures r.Failure().Some? && (r.Failure().value.PutFailed? || r.Failure().value.NoURL?) ==> r.Tried() != []
  {
    hide AppendOutcome, RowsOf, ReferenceUpload.Upload.Works, ReferenceUpload.Upload.Drawn;
    hide ReferenceUpload.Upload.FirstFailing, ReferenceUpload.FreshDraws, DistinctBlobs;
    ReferenceUpload.FirstFailingIs(r);
    if r.Failure().None? {
      ReferenceUpload.ReferenceBlobsAreDistinct(r, objects);
    }
  }

  /** The same for a template's decoded images, whichever of them makes the upload fail. */
  lemma {:induction false} TemplateIsARun(s: State, u: nat, t: TemplateUpload.Upload, objects: map<string, Bytes>,
                                          db: Db, now: int, err: Option<UploadError>)
    returns (run: seq<State>, steps: seq<Step>, end: State)
    requires t.Decodes() && Starts(s, u, t.userID, objects, t.Tried())
    requires TemplateUpload.FreshRun(t.userID, t.run, objects) && TemplateUpload.FreshRun(t.userID, t.run, s.owner)
    requires Ends(s.db, db, t.userID, RowsOf(t.Blobs(|t.refs|)), now, t.Failure(), err)
    ensures Runs(run, steps, s, end) && end.db == db
    ensures u in end.uploads && end.uploads[u].phase == if err.None? then Committed else Aborted
    ensures end.objects == Sizes(if err.None? then Stored(objects, t.Blobs(|t.refs|)) else objects)
  {
    hide Starts, Runs, Ends, CanRun, RowsOf, Grown, Sizes, Kept, KeysOf, Stored, DistinctBlobs, TemplateUpload.FreshRun;
    hide TemplateUpload.Upload.Works, TemplateUpload.Upload.Decodes, TemplateUpload.Upload.Blobs;
    hide TemplateUpload.Upload.Failure, TemplateUpload.Upload.FirstFailing;
    var n := if t.FirstFailing() < |t.refs| then t.FirstFailing() + 1 else |t.refs|;
    TemplateUpload.TemplateBlobsAreDistinct(t, n, objects);
    TemplateUpload.TemplateBlobsAreDistinct(t, n, s.owner);
    NewBlobs(t.Tried(), objects);
    NewBlobs(t.Tried(), s.owner);
    StartsCanRun(s, u, t.userID, objects, t.Tried());
    KeptAll(t.Tried());
    TemplateEnds(t, s.db, db, now, err);
    run, steps, end := EndedUploadIsARun(s, u, t.userID, t.Tried(), {}, RowsOf(t.Blobs(|t.refs|)), t.Failure(), db,
                                         now, err);
    StartSizes(s, u, t.userID, objects, t.Tried());
    StoreEndsSo(s, objects, t.Tried());
  }

  lemma TemplateEnds(t: TemplateUpload.Upload, before: Db, db: Db, now: int, err: Option<UploadError>)
    requires t.Decodes() && Ends(before, db, t.userID, RowsOf(t.Blobs(|t.refs|)), now, t.Failure(), err)
    ensures err.None? ==> t.Failure().None?
    ensures t.Failure().None? ==> t.Tried() == t.Blobs(|t.refs|)
    ensures t.Failure().Some? ==> t.Tried() != []
  {
    hide AppendOutcome, RowsOf, TemplateUpload.Upload.Works, TemplateUpload.Upload.Blobs;
    hide TemplateUpload.Upload.FirstFailing;
    hide TemplateUpload.Upload.Empty, TemplateUpload.Upload.Decodes;
    TemplateUpload.FirstFailingIs(t);
    if t.FirstFailing() < |t.refs| {
      TemplateUpload.FailingHasBlob(t, t.FirstFailing());
    }
  }
}
