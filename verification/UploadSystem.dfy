/**
 All uploads of all users at once (internal/api/oss_materialize.go with
 internal/userstorage): each upload checks the quota without a lock, puts its objects one
 by one, appends its ledger rows in one transaction, and deletes what it has put when
 anything fails. The steps of different uploads and of administrators interleave freely.
 */
module UploadSystem {
  import opened GoStrings
  import opened Quota

  datatype Phase = Putting | Compensating(left: set<string>) | Committed | Aborted

  // sizes: the keys the upload may write, with the byte sizes; tried: the recorded keys;
  // rows: the ledger rows of the objects it has put.
  datatype Upload = Upload(userID: string, sizes: map<string, nat>, optional: set<string>,
                           tried: set<string>, rows: seq<LedgerRow>, phase: Phase)

  datatype State = State(objects: map<string, nat>, db: Db, uploads: map<nat, Upload>, owner: map<string, nat>)

  datatype Step =
    | Register(userID: string, quota: int)
    | Begin(u: nat, userID: string, sizes: map<string, nat>, optional: set<string>, checked: Option<int>)
    | Put(u: nat, row: LedgerRow)
    | PutFails(u: nat, key: string)
    | PutThenFails(u: nat, key: string)
    | Fails(u: nat)
    | Append(u: nat, now: int, err: Option<AppendError>)
    | Delete(u: nat, key: string)
    | GiveUp(u: nat)
    | SetQuota(userID: string, quota: int)
    | AdjustQuota(userID: string, delta: int)

  ghost predicate In(s: State, u: nat, phase: Phase) {
    u in s.uploads && s.uploads[u].phase == phase
  }

  ghost function With(s: State, u: nat, upload: Upload): State {
    s.(uploads := s.uploads[u := upload])
  }

  ghost predicate Next(s: State, step: Step, s': State) {
    match step
    case Register(userID, quota) =>
      && userID !in s.db.accounts && quota >= 0
      && s' == s.(db := s.db.(accounts := s.db.accounts[userID := Account(0, quota)]))
    case Begin(u, userID, sizes, optional, checked) =>
      // Keys hold a fresh random part, and are never used by two uploads.
      && u !in s.uploads && sizes.Keys !! s.owner.Keys
      && userID != "" && userID in s.db.accounts
      && (checked.Some? ==> s.db.accounts[userID].used + checked.value <= s.db.accounts[userID].quota)
      && s' == With(s, u, Upload(userID, sizes, optional, {}, [], Putting)).(owner := s.owner + map k | k in sizes :: u)
    case Put(u, row) =>
      && In(s, u, Putting)
      && var up := s.uploads[u];
      && row.objectKey in up.sizes && row.objectKey !in up.tried && row.byteSize == up.sizes[row.objectKey]
      // The bytes of one upload are in memory together.
      && Sum(up.rows + [row]) <= MAX64
      && s' == With(s.(objects := s.objects[row.objectKey := row.byteSize]), u,
                    up.(tried := up.tried + {row.objectKey}, rows := up.rows + [row]))
    case PutFails(u, key) =>
      && In(s, u, Putting)
      && var up := s.uploads[u];
      && key in up.sizes && key !in up.tried
      && s' == With(s, u, up.(tried := up.tried + {key},
                              phase := if key in up.optional then Putting else Compensating(up.tried + {key})))
    case PutThenFails(u, key) =>
      && In(s, u, Putting)
      && var up := s.uploads[u];
      && key in up.sizes && key !in up.tried
      && s' == With(s.(objects := s.objects[key := up.sizes[key]]), u,
                    up.(tried := up.tried + {key}, phase := Compensating(up.tried + {key})))
    case Fails(u) =>
      && In(s, u, Putting)
      && s' == With(s, u, s.uploads[u].(phase := Compensating(s.uploads[u].tried)))
    case Append(u, now, err) =>
      && In(s, u, Putting)
      && var up := s.uploads[u];
      && AppendOutcome(s.db, s'.db, up.userID, up.rows, now, err)
      && s' == With(s.(db := s'.db), u, up.(phase := if err.None? then Committed else Compensating(up.tried)))
    case Delete(u, key) =>
      && u in s.uploads && s.uploads[u].phase.Compensating?
      && var up := s.uploads[u];
      && key in up.phase.left
      && s' == With(s.(objects := s.objects - {key}), u, up.(phase := Compensating(up.phase.left - {key})))
    case GiveUp(u) =>
      && In(s, u, Compensating({}))
      && s' == With(s, u, s.uploads[u].(phase := Aborted))
    case SetQuota(userID, quota) =>
      && userID in s.db.accounts && quota >= 0
      && s' == s.(db := WithQuota(s.db, userID, quota))
    case AdjustQuota(userID, delta) =>
      && userID in s.db.accounts && Wrap64(s.db.accounts[userID].quota + delta) >= 0
      && s' == s.(db := WithQuota(s.db, userID, Wrap64(s.db.accounts[userID].quota + delta)))
  }

  ghost predicate Init(s: State) {
    s == State(map[], Db(map[], []), map[], map[])
  }

  // The objects of one upload, by phase.
  ghost predicate UploadOk(s: State, u: nat)
    requires u in s.uploads
  {
    var up := s.uploads[u];
    && up.userID != "" && up.userID in s.db.accounts
    && up.tried <= up.sizes.Keys && NonNegative(up.rows) && Sum(up.rows) <= MAX64
    && (forall k :: k in up.sizes ==> k in s.owner && s.owner[k] == u)
    && (forall r :: r in up.rows ==> r.objectKey in up.tried && r.byteSize == up.sizes[r.objectKey])
    && (forall k :: k in up.sizes && k in s.objects ==> s.objects[k] == up.sizes[k])
    && match up.phase {
         case Putting => forall k :: k in up.sizes ==> (k in s.objects <==> k in RowKeys(up.rows))
         case Compensating(left) => left <= up.tried && forall k :: k in up.sizes && k in s.objects ==> k in left
         case Aborted => forall k :: k in up.sizes ==> k !in s.objects
         case Committed =>
           && (forall k :: k in up.sizes ==> (k in s.objects <==> k in RowKeys(up.rows)))
           && RowKeys(up.rows) <= LedgerKeys(s.db.ledger)
       }
  }

  // An object belongs to one upload; a ledger row to a committed one.
  ghost predicate OwnedObject(s: State, key: string) {
    key in s.owner && s.owner[key] in s.uploads && key in s.uploads[s.owner[key]].sizes
  }

  ghost predicate OwnedRow(s: State, r: StoredRow) {
    && OwnedObject(s, r.objectKey)
    && var up := s.uploads[s.owner[r.objectKey]];
    && up.phase == Committed && r.objectKey in RowKeys(up.rows) && r.byteSize == up.sizes[r.objectKey]
  }

  ghost predicate Inv(s: State) {
    && Balanced(s.db)
    && (forall u :: u in s.uploads ==> UploadOk(s, u))
    && (forall k :: k in s.objects ==> OwnedObject(s, k))
    && (forall k :: k in s.owner ==> OwnedObject(s, k))
    && (forall r :: r in s.db.ledger ==> OwnedRow(s, r))
  }

  // A step of upload u that leaves the database alone and touches only u's own objects.
  ghost predicate LocalTo(s: State, s': State, u: nat) {
    && u in s.uploads && u in s'.uploads
    && s'.db == s.db && s'.owner == s.owner
    && s'.uploads == s.uploads[u := s'.uploads[u]]
    && s.uploads[u].phase != Committed && s'.uploads[u].sizes == s.uploads[u].sizes
    && (forall k :: k in s'.objects && k !in s.uploads[u].sizes ==> k in s.objects && s'.objects[k] == s.objects[k])
    && (forall k :: k in s.objects && k !in s.uploads[u].sizes ==> k in s'.objects)
  }

  lemma OthersUnaffected(s: State, s': State, u: nat, v: nat)
    requires Inv(s) && LocalTo(s, s', u) && v in s.uploads && v != u
    ensures UploadOk(s', v)
  {
    hide Balanced, OwnedRow, OwnedObject, RowKeys, LedgerKeys;
    assert UploadOk(s, v) && UploadOk(s, u);
    forall k | k in s.uploads[v].sizes
      ensures k !in s.uploads[u].sizes
    {
      assert s.owner[k] == v;
    }
    ApartUnaffected(s, s', u, v);
  }

  // An upload with other keys is unaffected.
  lemma ApartUnaffected(s: State, s': State, u: nat, v: nat)
    requires LocalTo(s, s', u) && v in s.uploads && v != u && UploadOk(s, v)
    requires forall k :: k in s.uploads[v].sizes ==> k !in s.uploads[u].sizes
    ensures UploadOk(s', v)
  {
    hide RowKeys, LedgerKeys, Sum, NonNegative;
  }

  lemma SizesAreOwned(s: State, u: nat)
    requires u in s.uploads && UploadOk(s, u)
    ensures forall k :: k in s.uploads[u].sizes ==> k in s.owner
  {
  }

  lemma OwnersUnaffected(s: State, s': State, u: nat)
    requires Inv(s) && LocalTo(s, s', u)
    ensures forall k :: k in s.owner ==> OwnedObject(s', k)
    ensures forall k :: k in s'.objects ==> k in s.owner
    ensures forall r :: r in s.db.ledger ==> OwnedRow(s', r)
  {
    hide Balanced, LedgerKeys, RowKeys, UploadOk;
    forall k | k in s.owner
      ensures OwnedObject(s', k)
    {
      assert OwnedObject(s, k);
    }
    SizesAreOwned(s, u);
    forall k | k in s'.objects
      ensures k in s.owner
    {
      assert k in s.objects ==> OwnedObject(s, k);
    }
    forall r | r in s.db.ledger
      ensures OwnedRow(s', r)
    {
      assert OwnedRow(s, r);
    }
  }

  lemma {:induction false} LocalKeeps(s: State, s': State, u: nat)
    requires Inv(s) && LocalTo(s, s', u) && UploadOk(s', u)
    ensures Inv(s')
  {
    OwnersUnaffected(s, s', u);
    forall v | v in s'.uploads
      ensures UploadOk(s', v)
    {
      if v != u {
        OthersUnaffected(s, s', u, v);
      }
    }
  }

  lemma {:induction false} PutKeeps(s: State, u: nat, row: LedgerRow, s': State)
    requires Inv(s) && Next(s, Put(u, row), s')
    ensures Inv(s')
  {
    hide Balanced, OwnedObject, OwnedRow, LedgerKeys;
    assert UploadOk(s, u);
    RowsAppend(s.uploads[u].rows, row);
    LocalKeeps(s, s', u);
  }

  // Trying one more key keeps an upload in order, if it is put only to be deleted again.
  lemma TriedStaysOk(s: State, s': State, u: nat)
    requires u in s.uploads && UploadOk(s, u) && s.uploads[u].phase == Putting && LocalTo(s, s', u)
    requires var up, up' := s.uploads[u], s'.uploads[u];
             && up.tried <= up'.tried <= up.sizes.Keys && up' == up.(tried := up'.tried, phase := up'.phase)
             && (up'.phase == Putting || up'.phase == Compensating(up'.tried))
             && (forall k :: k in up.sizes && k in s'.objects ==>
                   s'.objects[k] == up.sizes[k] && (k in up'.tried || k in s.objects))
             && (up'.phase == Putting ==> s'.objects == s.objects)
    ensures UploadOk(s', u)
  {
    hide LedgerKeys, Sum, NonNegative;
  }

  lemma {:induction false} PutFailsKeeps(s: State, u: nat, key: string, s': State)
    requires Inv(s) && Next(s, PutFails(u, key), s')
    ensures Inv(s')
  {
    hide Balanced, OwnedObject, OwnedRow, LedgerKeys, RowKeys, Sum;
    assert UploadOk(s, u);
    assert s'.uploads[u].tried == s.uploads[u].tried + {key};
    TriedStaysOk(s, s', u);
    LocalKeeps(s, s', u);
  }

  lemma {:induction false} PutThenFailsKeeps(s: State, u: nat, key: string, s': State)
    requires Inv(s) && Next(s, PutThenFails(u, key), s')
    ensures Inv(s')
  {
    hide Balanced, OwnedObject, OwnedRow, LedgerKeys, RowKeys, Sum;
    assert UploadOk(s, u);
    assert s'.uploads[u].tried == s.uploads[u].tried + {key};
    TriedStaysOk(s, s', u);
    LocalKeeps(s, s', u);
  }

  lemma {:induction false} FailsKeeps(s: State, u: nat, s': State)
    requires Inv(s) && Next(s, Fails(u), s')
    ensures Inv(s')
  {
    hide Balanced, OwnedObject, OwnedRow, LedgerKeys;
    assert UploadOk(s, u);
    LocalKeeps(s, s', u);
  }

  lemma DeletedStaysOk(s: State, s': State, u: nat, key: string)
    requires u in s.uploads && UploadOk(s, u) && s.uploads[u].phase.Compensating? && Next(s, Delete(u, key), s')
    ensures UploadOk(s', u)
  {
    hide LedgerKeys, RowKeys, Sum, NonNegative;
  }

  lemma {:induction false} DeleteKeeps(s: State, u: nat, key: string, s': State)
    requires Inv(s) && Next(s, Delete(u, key), s')
    ensures Inv(s')
  {
    hide Balanced, OwnedObject, OwnedRow, LedgerKeys, RowKeys, Sum;
    assert UploadOk(s, u);
    DeletedStaysOk(s, s', u, key);
    LocalKeeps(s, s', u);
  }

  lemma {:induction false} GiveUpKeeps(s: State, u: nat, s': State)
    requires Inv(s) && Next(s, GiveUp(u), s')
    ensures Inv(s')
  {
    hide Balanced, OwnedObject, OwnedRow, LedgerKeys;
    assert UploadOk(s, u);
    LocalKeeps(s, s', u);
  }

  // A step that only adds: new owners and uploads, rows of committed uploads, accounts.
  ghost predicate Adds(s: State, s': State) {
    && s'.objects == s.objects
    && (forall k :: k in s.owner ==> k in s'.owner && s'.owner[k] == s.owner[k])
    && (forall u :: u in s.uploads ==> u in s'.uploads && s'.uploads[u].sizes == s.uploads[u].sizes)
    && (forall u :: u in s.uploads && s.uploads[u].phase == Committed ==> s'.uploads[u] == s.uploads[u])
  }

  lemma OwnersKept(s: State, s': State)
    requires Inv(s) && Adds(s, s')
    ensures forall k :: k in s.owner ==> OwnedObject(s', k)
    ensures forall k :: k in s'.objects ==> OwnedObject(s', k)
    ensures forall r :: r in s.db.ledger ==> OwnedRow(s', r)
  {
    forall k | k in s.owner
      ensures OwnedObject(s', k)
    {
      assert OwnedObject(s, k);
    }
    forall k | k in s'.objects
      ensures OwnedObject(s', k)
    {
      assert OwnedObject(s, k);
    }
    forall r | r in s.db.ledger
      ensures OwnedRow(s', r)
    {
      assert OwnedRow(s, r);
    }
  }

  lemma SameUploadKept(s: State, s': State, v: nat)
    requires v in s.uploads && UploadOk(s, v) && v in s'.uploads && s'.uploads[v] == s.uploads[v]
    requires s'.objects == s.objects && s.db.accounts.Keys <= s'.db.accounts.Keys
    requires forall k :: k in s.owner ==> k in s'.owner && s'.owner[k] == s.owner[k]
    requires LedgerKeys(s.db.ledger) <= LedgerKeys(s'.db.ledger)
    ensures UploadOk(s', v)
  {
  }

  lemma {:induction false} BeginKeeps(s: State, u: nat, userID: string, sizes: map<string, nat>,
                                      optional: set<string>, checked: Option<int>, s': State)
    requires Inv(s) && Next(s, Begin(u, userID, sizes, optional, checked), s')
    ensures Inv(s')
  {
    hide Balanced, LedgerKeys, RowKeys, UploadOk;
    OwnersKept(s, s');
    forall v | v in s'.uploads
      ensures UploadOk(s', v)
    {
      if v != u {
        SameUploadKept(s, s', v);
      } else {
        FreshUploadOk(s, s', u);
      }
    }
  }

  lemma FreshUploadOk(s: State, s': State, u: nat)
    requires forall k :: k in s.objects ==> OwnedObject(s, k)
    requires s'.objects == s.objects && u in s'.uploads
    requires var up := s'.uploads[u];
             && up.tried == {} && up.rows == [] && up.phase == Putting
             && up.userID != "" && up.userID in s'.db.accounts && up.sizes.Keys !! s.owner.Keys
             && forall k :: k in up.sizes ==> k in s'.owner && s'.owner[k] == u
    ensures UploadOk(s', u)
  {
    assert Sum([]) == 0;
    forall k | k in s'.uploads[u].sizes
      ensures k !in s.objects
    {
      assert k in s.objects ==> OwnedObject(s, k);
    }
  }

  lemma {:induction false} NoRowsNoSum(ledger: seq<StoredRow>, u: string)
    requires forall r :: r in ledger ==> r.userID != u
    ensures SumFor(ledger, u) == 0
  {
    if ledger != [] {
      NoRowsNoSum(ledger[..|ledger| - 1], u);
      assert ledger[|ledger| - 1] in ledger;
    }
  }

  // The steps that only touch accounts.
  lemma {:induction false} AccountsKeep(s: State, s': State)
    requires Inv(s) && s' == s.(db := s'.db) && s'.db.ledger == s.db.ledger
    requires s.db.accounts.Keys <= s'.db.accounts.Keys && Balanced(s'.db)
    ensures Inv(s')
  {
    forall v | v in s'.uploads
      ensures UploadOk(s', v)
    {
      SameUploadKept(s, s', v);
    }
    assert forall k :: OwnedObject(s, k) ==> OwnedObject(s', k);
    assert forall r :: OwnedRow(s, r) ==> OwnedRow(s', r);
  }

  lemma {:induction false} AccountStepKeeps(s: State, step: Step, s': State)
    requires Inv(s) && Next(s, step, s') && (step.Register? || step.SetQuota? || step.AdjustQuota?)
    ensures Inv(s')
  {
    if step.Register? {
      NoRowsNoSum(s.db.ledger, step.userID);
    }
    AccountsKeep(s, s');
  }

  // The appended rows are those of the committing upload.
  lemma AppendedRows(s: State, u: nat, now: int, db': Db, r: StoredRow)
    requires In(s, u, Putting) && s.uploads[u].rows != [] && s.uploads[u].userID != ""
    requires AppendOutcome(s.db, db', s.uploads[u].userID, s.uploads[u].rows, now, None) && r in db'.ledger
    ensures r in s.db.ledger
         || exists row :: row in s.uploads[u].rows && r.objectKey == row.objectKey && r.byteSize == row.byteSize
  {
    hide UniqueIds, WrapSum;
    var rows, n := s.uploads[u].rows, |s.db.ledger|;
    var i :| 0 <= i < |db'.ledger| && db'.ledger[i] == r;
    if i < n {
      assert db'.ledger[..n][i] == r;
    } else {
      assert Records(db'.ledger[n + (i - n)], s.uploads[u].userID, rows[i - n], now);
      assert rows[i - n] in rows;
    }
  }

  lemma ExtendedKeys(ledger: seq<StoredRow>, ledger': seq<StoredRow>, userID: string, rows: seq<LedgerRow>, now: int)
    requires Extended(ledger, ledger', userID, rows, now)
    ensures LedgerKeys(ledger) + RowKeys(rows) <= LedgerKeys(ledger')
  {
    forall r | r in ledger
      ensures r in ledger'
    {
      var i :| 0 <= i < |ledger| && ledger[i] == r;
      assert ledger'[..|ledger|][i] == r;
    }
    forall row | row in rows
      ensures row.objectKey in LedgerKeys(ledger')
    {
      var i :| 0 <= i < |rows| && rows[i] == row;
      assert Records(ledger'[|ledger| + i], userID, rows[i], now);
    }
  }

  lemma {:induction false} AppendGrows(s: State, u: nat, now: int, err: Option<AppendError>, s': State)
    requires Inv(s) && Next(s, Append(u, now, err), s')
    ensures LedgerKeys(s.db.ledger) <= LedgerKeys(s'.db.ledger) && s'.db.accounts.Keys == s.db.accounts.Keys
    ensures err.None? ==> RowKeys(s.uploads[u].rows) <= LedgerKeys(s'.db.ledger)
    ensures Balanced(s'.db)
  {
    var up := s.uploads[u];
    assert UploadOk(s, u);
    if err.None? && up.rows != [] {
      ExtendedKeys(s.db.ledger, s'.db.ledger, up.userID, up.rows, now);
      AppendKeepsBalance(s.db, s'.db, up.userID, up.rows, now);
    }
  }

  // The upload itself, once the ledger has grown or the append has failed.
  lemma OwnUploadAppended(s: State, u: nat, committed: bool, s': State)
    requires In(s, u, Putting) && UploadOk(s, u) && u in s'.uploads
    requires s'.uploads[u] == s.uploads[u].(phase := if committed then Committed else Compensating(s.uploads[u].tried))
    requires s'.objects == s.objects && s'.owner == s.owner && s.db.accounts.Keys <= s'.db.accounts.Keys
    requires committed ==> RowKeys(s.uploads[u].rows) <= LedgerKeys(s'.db.ledger)
    ensures UploadOk(s', u)
  {
  }

  lemma {:induction false} AppendKeepsRows(s: State, u: nat, now: int, err: Option<AppendError>, s': State)
    requires Inv(s) && Next(s, Append(u, now, err), s') && Adds(s, s')
    ensures forall r :: r in s'.db.ledger ==> OwnedRow(s', r)
  {
    OwnersKept(s, s');
    assert UploadOk(s, u);
    forall r | r in s'.db.ledger
      ensures OwnedRow(s', r)
    {
      if r !in s.db.ledger {
        AppendedRows(s, u, now, s'.db, r);
      }
    }
  }

  lemma AppendAdds(s: State, u: nat, now: int, err: Option<AppendError>, s': State)
    requires Inv(s) && Next(s, Append(u, now, err), s')
    ensures Adds(s, s')
  {
    hide Balanced, OwnedObject, OwnedRow, UploadOk, AppendOutcome;
  }

  lemma OthersKept(s: State, s': State, u: nat)
    requires Inv(s) && u in s.uploads && u in s'.uploads && UploadOk(s', u)
    requires s' == With(s.(db := s'.db), u, s'.uploads[u])
    requires s.db.accounts.Keys <= s'.db.accounts.Keys && LedgerKeys(s.db.ledger) <= LedgerKeys(s'.db.ledger)
    ensures forall v :: v in s'.uploads ==> UploadOk(s', v)
  {
    forall v | v in s'.uploads
      ensures UploadOk(s', v)
    {
      if v != u {
        SameUploadKept(s, s', v);
      }
    }
  }

  lemma {:induction false} AppendKeeps(s: State, u: nat, now: int, err: Option<AppendError>, s': State)
    requires Inv(s) && Next(s, Append(u, now, err), s')
    ensures Inv(s')
  {
    hide Balanced, OwnedObject, OwnedRow, UploadOk, AppendOutcome, LedgerKeys, RowKeys;
    AppendGrows(s, u, now, err, s');
    AppendAdds(s, u, now, err, s');
    assert forall v :: v in s'.uploads ==> UploadOk(s', v) by {
      OwnUploadAppended(s, u, err.None?, s');
      OthersKept(s, s', u);
    }
    assert (forall k :: k in s'.objects ==> OwnedObject(s', k))
           && (forall k :: k in s'.owner ==> OwnedObject(s', k)) by {
      OwnersKept(s, s');
    }
    assert forall r :: r in s'.db.ledger ==> OwnedRow(s', r) by {
      AppendKeepsRows(s, u, now, err, s');
    }
  }

  lemma {:induction false} StepKeeps(s: State, step: Step, s': State)
    requires Inv(s) && Next(s, step, s')
    ensures Inv(s')
  {
    match step
    case Begin(u, userID, sizes, optional, checked) => BeginKeeps(s, u, userID, sizes, optional, checked, s');
    case Put(u, row) => PutKeeps(s, u, row, s');
    case PutFails(u, key) => PutFailsKeeps(s, u, key, s');
    case PutThenFails(u, key) => PutThenFailsKeeps(s, u, key, s');
    case Fails(u) => FailsKeeps(s, u, s');
    case Append(u, now, err) => AppendKeeps(s, u, now, err, s');
    case Delete(u, key) => DeleteKeeps(s, u, key, s');
    case GiveUp(u) => GiveUpKeeps(s, u, s');
    case _ => AccountStepKeeps(s, step, s');
  }

  ghost predicate IsRun(run: seq<State>, steps: seq<Step>) {
    && |run| == |steps| + 1 && Init(run[0])
    && forall i :: 0 <= i < |steps| ==> Next(run[i], steps[i], run[i + 1])
  }

  lemma {:induction false} ReachableInv(run: seq<State>, steps: seq<Step>, i: nat)
    requires IsRun(run, steps) && i < |run|
    ensures Inv(run[i])
  {
    if i > 0 {
      ReachableInv(run, steps, i - 1);
      assert Next(run[i - 1], steps[i - 1], run[i - 1 + 1]);
      StepKeeps(run[i - 1], steps[i - 1], run[i]);
    }
  }

  /**
   In every reachable state each user's used bytes are the sum of the user's ledger rows,
   and each ledger row's object is in the store with exactly the recorded size.
   */
  lemma LedgerIsTrue(run: seq<State>, steps: seq<Step>, i: nat)
    requires IsRun(run, steps) && i < |run|
    ensures forall u :: u in run[i].db.accounts ==>
              run[i].db.accounts[u].used == SumFor(run[i].db.ledger, u) && run[i].db.accounts[u].quota >= 0
    ensures forall r :: r in run[i].db.ledger ==>
              r.objectKey in run[i].objects && run[i].objects[r.objectKey] == r.byteSize
  {
    ReachableInv(run, steps, i);
    var s := run[i];
    forall r | r in s.db.ledger
      ensures r.objectKey in s.objects && s.objects[r.objectKey] == r.byteSize
    {
      assert OwnedRow(s, r);
      assert UploadOk(s, s.owner[r.objectKey]);
    }
  }

  ghost predicate Quiescent(s: State) {
    forall u :: u in s.uploads ==> s.uploads[u].phase == Committed || s.uploads[u].phase == Aborted
  }

  // When no upload is under way the store holds exactly the ledger's objects: no upload has
  // left an object behind, whatever failed.
  lemma NoOrphans(run: seq<State>, steps: seq<Step>, i: nat)
    requires IsRun(run, steps) && i < |run| && Quiescent(run[i])
    ensures run[i].objects.Keys == LedgerKeys(run[i].db.ledger)
  {
    hide Balanced, IsRun;
    ReachableInv(run, steps, i);
    LedgerIsTrue(run, steps, i);
    var s := run[i];
    forall k | k in s.objects
      ensures k in LedgerKeys(s.db.ledger)
    {
      assert OwnedObject(s, k);
      assert UploadOk(s, s.owner[k]);
    }
  }

  // A failed upload leaves none of its objects.
  lemma AbortedLeavesNothing(run: seq<State>, steps: seq<Step>, i: nat, u: nat)
    requires IsRun(run, steps) && i < |run| && In(run[i], u, Aborted)
    ensures run[i].uploads[u].sizes.Keys !! run[i].objects.Keys
  {
    ReachableInv(run, steps, i);
    assert UploadOk(run[i], u);
  }

  ghost predicate WithinQuota(db: Db) {
    forall u :: u in db.accounts ==> db.accounts[u].used <= db.accounts[u].quota
  }

  // An administrator's step that takes a quota below what is used.
  ghost predicate Undercuts(s: State, step: Step) {
    match step
    case SetQuota(userID, quota) => userID in s.db.accounts && quota < s.db.accounts[userID].used
    case AdjustQuota(userID, delta) =>
      userID in s.db.accounts && Wrap64(s.db.accounts[userID].quota + delta) < s.db.accounts[userID].used
    case _ => false
  }

  // A step keeps every user within quota exactly when it does not undercut one.
  lemma StepWithinQuota(s: State, step: Step, s': State)
    requires Inv(s) && Next(s, step, s') && WithinQuota(s.db)
    ensures WithinQuota(s'.db) <==> !Undercuts(s, step)
  {
    if step.Append? {
      assert UploadOk(s, step.u);
      assert forall u :: u in s'.db.accounts ==> u in s.db.accounts;
    }
    if Undercuts(s, step) {
      assert s'.db.accounts[step.userID].used > s'.db.accounts[step.userID].quota;
    }
  }

  /**
   However the uploads interleave, and however stale their quota checks are, nobody ever
   uses more than the quota, as long as no administrator takes a quota below the used bytes.
   */
  lemma {:induction false} QuotaHolds(run: seq<State>, steps: seq<Step>, i: nat)
    requires IsRun(run, steps) && i < |run|
    requires forall k :: 0 <= k < i ==> !Undercuts(run[k], steps[k])
    ensures WithinQuota(run[i].db)
  {
    if i > 0 {
      QuotaHolds(run, steps, i - 1);
      ReachableInv(run, steps, i - 1);
      assert Next(run[i - 1], steps[i - 1], run[i - 1 + 1]);
      StepWithinQuota(run[i - 1], steps[i - 1], run[i]);
    }
  }
}
