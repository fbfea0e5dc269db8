/**
 Conservation of bytes: when no upload is under way, the bytes in the object store are the
 bytes in the ledger, which are the bytes the users are charged for.
 */
module StorageTotals {
  import opened MapSums
  import opened Quota
  import opened UploadSystem

  function SumAll(ledger: seq<StoredRow>): int {
    if ledger == [] then 0 else SumAll(ledger[..|ledger| - 1]) + ledger[|ledger| - 1].byteSize
  }

  // The ledger mentions a key once.
  ghost predicate UniqueKeys(ledger: seq<StoredRow>) {
    ledger == [] ||
    (UniqueKeys(ledger[..|ledger| - 1]) && ledger[|ledger| - 1].objectKey !in LedgerKeys(ledger[..|ledger| - 1]))
  }

  ghost predicate KeysOnce(s: State) {
    && UniqueKeys(s.db.ledger)
    && forall u :: u in s.uploads ==> DistinctRows(s.uploads[u].rows)
  }

  lemma LedgerLast(ledger: seq<StoredRow>)
    requires ledger != []
    ensures LedgerKeys(ledger) == LedgerKeys(ledger[..|ledger| - 1]) + {ledger[|ledger| - 1].objectKey}
  {
    assert ledger == ledger[..|ledger| - 1] + [ledger[|ledger| - 1]];
  }

  lemma RowsLast(rows: seq<LedgerRow>)
    requires rows != []
    ensures RowKeys(rows) == RowKeys(rows[..|rows| - 1]) + {rows[|rows| - 1].objectKey}
  {
    assert rows == rows[..|rows| - 1] + [rows[|rows| - 1]];
  }

  lemma {:induction false} ExtendedUnique(ledger: seq<StoredRow>, ledger': seq<StoredRow>, userID: string,
                                          rows: seq<LedgerRow>, now: int)
    requires Extended(ledger, ledger', userID, rows, now)
    requires UniqueKeys(ledger) && DistinctRows(rows) && LedgerKeys(ledger) !! RowKeys(rows)
    ensures UniqueKeys(ledger') && LedgerKeys(ledger') == LedgerKeys(ledger) + RowKeys(rows)
  {
    if rows == [] {
      assert ledger' == ledger;
    } else {
      var n, m := |rows| - 1, |ledger'| - 1;
      assert Extended(ledger, ledger'[..m], userID, rows[..n], now) && ledger'[m].objectKey == rows[n].objectKey by {
        ExtendedButOne(ledger, ledger', userID, rows, now);
      }
      RowsLast(rows);
      LedgerLast(ledger');
      ExtendedUnique(ledger, ledger'[..m], userID, rows[..n], now);
    }
  }

  // Until it commits, an upload's keys are not in the ledger.
  lemma PuttingKeysAreNew(s: State, u: nat)
    requires Inv(s) && In(s, u, Putting)
    ensures LedgerKeys(s.db.ledger) !! RowKeys(s.uploads[u].rows)
  {
    assert UploadOk(s, u);
    forall r | r in s.db.ledger
      ensures r.objectKey !in RowKeys(s.uploads[u].rows)
    {
      assert OwnedRow(s, r);
    }
  }

  // The next object's key is not among those put before.
  lemma PutKeepsRowsDistinct(s: State, u: nat, row: LedgerRow)
    requires u in s.uploads && UploadOk(s, u) && DistinctRows(s.uploads[u].rows) && row.objectKey !in s.uploads[u].tried
    ensures DistinctRows(s.uploads[u].rows + [row])
  {
    var rows := s.uploads[u].rows;
    assert (rows + [row])[..|rows|] == rows;
  }

  lemma UserOf(s: State, u: nat)
    requires u in s.uploads && UploadOk(s, u)
    ensures s.uploads[u].userID != ""
  {
  }

  lemma {:induction false} StepKeepsKeysOnce(s: State, step: Step, s': State)
    requires Inv(s) && KeysOnce(s) && Next(s, step, s')
    ensures KeysOnce(s')
  {
    assert DistinctRows([]);
    hide Balanced, OwnedObject, OwnedRow, UniqueKeys, LedgerKeys, RowKeys, Sum, UploadOk, DistinctRows, Extended;
    if step.Put? {
      PutKeepsRowsDistinct(s, step.u, step.row);
    } else if step.Append? && step.err.None? {
      var up := s.uploads[step.u];
      UserOf(s, step.u);
      if up.rows != [] {
        PuttingKeysAreNew(s, step.u);
        ExtendedUnique(s.db.ledger, s'.db.ledger, up.userID, up.rows, step.now);
      }
    }
  }

  lemma {:induction false} ReachableKeysOnce(run: seq<State>, steps: seq<Step>, i: nat)
    requires IsRun(run, steps) && i < |run|
    ensures KeysOnce(run[i])
  {
    if i > 0 {
      ReachableKeysOnce(run, steps, i - 1);
      ReachableInv(run, steps, i - 1);
      assert Next(run[i - 1], steps[i - 1], run[i - 1 + 1]);
      StepKeepsKeysOnce(run[i - 1], steps[i - 1], run[i]);
    }
  }

  // A store that holds exactly the ledger's objects holds the ledger's bytes.
  lemma {:induction false} StoreIsLedger(objects: map<string, int>, ledger: seq<StoredRow>)
    requires UniqueKeys(ledger) && objects.Keys == LedgerKeys(ledger)
    requires forall r :: r in ledger ==> objects[r.objectKey] == r.byteSize
    ensures MapSum(objects) == SumAll(ledger)
  {
    if ledger == [] {
      assert objects == map[];
    } else {
      var before, last := ledger[..|ledger| - 1], ledger[|ledger| - 1];
      WithoutLast(objects, ledger);
      hide LedgerKeys, UniqueKeys;
      MapSumRemove(objects, last.objectKey);
      StoreIsLedger(objects - {last.objectKey}, before);
    }
  }

  // Without its last row's object a store holds the objects of the other rows.
  lemma WithoutLast(objects: map<string, int>, ledger: seq<StoredRow>)
    requires ledger != [] && UniqueKeys(ledger) && objects.Keys == LedgerKeys(ledger)
    requires forall r :: r in ledger ==> objects[r.objectKey] == r.byteSize
    ensures var before, last := ledger[..|ledger| - 1], ledger[|ledger| - 1];
            && last.objectKey in objects && objects[last.objectKey] == last.byteSize
            && UniqueKeys(before) && (objects - {last.objectKey}).Keys == LedgerKeys(before)
            && forall r :: r in before ==> (objects - {last.objectKey})[r.objectKey] == r.byteSize
  {
    LedgerLast(ledger);
    assert ledger[|ledger| - 1] in ledger;
    assert forall r :: r in ledger[..|ledger| - 1] ==> r in ledger;
  }

  ghost function UsedIn(ledger: seq<StoredRow>, users: set<string>): map<string, int> {
    map u | u in users :: SumFor(ledger, u)
  }

  lemma {:induction false} UsersAreLedger(ledger: seq<StoredRow>, users: set<string>)
    requires forall r :: r in ledger ==> r.userID in users
    ensures MapSum(UsedIn(ledger, users)) == SumAll(ledger)
  {
    if ledger == [] {
      AllZero(UsedIn(ledger, users));
    } else {
      var before, last := ledger[..|ledger| - 1], ledger[|ledger| - 1];
      assert last in ledger && forall r :: r in before ==> r in ledger;
      UsersAreLedger(before, users);
      var m := UsedIn(before, users);
      assert UsedIn(ledger, users) == m[last.userID := m[last.userID] + last.byteSize];
      MapSumUpdate(m, last.userID, m[last.userID] + last.byteSize);
    }
  }

  ghost function Charged(db: Db): map<string, int> {
    map u | u in db.accounts :: db.accounts[u].used
  }

  lemma ChargedIsLedger(db: Db)
    requires Balanced(db)
    ensures MapSum(Charged(db)) == SumAll(db.ledger)
  {
    UsersAreLedger(db.ledger, db.accounts.Keys);
    assert UsedIn(db.ledger, db.accounts.Keys) == Charged(db);
  }

  /** At every moment the bytes charged are the bytes recorded; at rest they are also the bytes stored. */
  lemma BytesAreConserved(run: seq<State>, steps: seq<Step>, i: nat)
    requires IsRun(run, steps) && i < |run|
    ensures MapSum(Charged(run[i].db)) == SumAll(run[i].db.ledger)
    ensures Quiescent(run[i]) ==> MapSum(run[i].objects) == SumAll(run[i].db.ledger)
  {
    assert MapSum(Charged(run[i].db)) == SumAll(run[i].db.ledger) by {
      ReachableInv(run, steps, i);
      ChargedIsLedger(run[i].db);
    }
    if Quiescent(run[i]) {
      assert UniqueKeys(run[i].db.ledger) by { ReachableKeysOnce(run, steps, i); }
      LedgerIsTrue(run, steps, i);
      NoOrphans(run, steps, i);
      StoreIsLedger(run[i].objects, run[i].db.ledger);
    }
  }
}
