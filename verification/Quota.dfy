/**
 The storage quota ledger (internal/userstorage/quota.go and admin.go): one account row per
 user and one ledger row per stored object. Sizes, sums and quotas are Go int64 values and
 BIGINT columns: Go's sums wrap around, a column refuses a value it cannot hold. A
 transaction either commits as a whole or changes nothing.
 */
module Quota {
  import opened GoStrings

  const MIN64 := -0x8000_0000_0000_0000
  const MAX64 := 0x7FFF_FFFF_FFFF_FFFF

  predicate IsInt64(x: int) {
    MIN64 <= x <= MAX64
  }

  // The value an int64 variable holds after x is assigned to it.
  function Wrap64(x: int): int {
    (x - MIN64) % 0x1_0000_0000_0000_0000 + MIN64
  }

  lemma Wrap64Exact(x: int)
    ensures IsInt64(Wrap64(x))
    ensures Wrap64(x) == x <==> IsInt64(x)
  {
  }

  lemma Wrap64Sum(x: int, y: int)
    ensures Wrap64(Wrap64(x) + y) == Wrap64(x + y)
  {
    var m := 0x1_0000_0000_0000_0000;
    assert Wrap64(x) == x - m * ((x - MIN64) / m);
  }

  datatype LedgerRow = LedgerRow(id: string, objectKey: string, byteSize: int, kind: string, jobID: string)

  datatype StoredRow = StoredRow(id: string, userID: string, objectKey: string, byteSize: int,
                                 kind: string, jobID: string, createdAt: int)

  datatype Account = Account(used: int, quota: int)

  datatype Db = Db(accounts: map<string, Account>, ledger: seq<StoredRow>)

  datatype AppendError = QuotaExceeded | NegativeSize | UserMissing | Failed

  // What else may go wrong inside one transaction, and the identifiers it draws.
  datatype TxEnv = TxEnv(begins: bool, draw: nat -> Option<string>, inserts: nat -> bool, bumps: bool, commits: bool)

  datatype QuotaError = Rejected | NoUser | NotDone

  // What may go wrong when an administrator changes a quota; countsUnchanged: the database counts
  // a row it has matched even if nothing in it changes.
  datatype AdminEnv = AdminEnv(begins: bool, selects: bool, writes: bool, commits: bool, counts: bool,
                               countsUnchanged: bool)

  function Sum(rows: seq<LedgerRow>): int {
    if rows == [] then 0 else Sum(rows[..|rows| - 1]) + rows[|rows| - 1].byteSize
  }

  // The sum as the Go loop accumulates it.
  function WrapSum(rows: seq<LedgerRow>): int {
    if rows == [] then 0 else Wrap64(WrapSum(rows[..|rows| - 1]) + rows[|rows| - 1].byteSize)
  }

  lemma {:induction false} WrapSumIsWrappedSum(rows: seq<LedgerRow>)
    ensures WrapSum(rows) == Wrap64(Sum(rows))
  {
    if rows != [] {
      WrapSumIsWrappedSum(rows[..|rows| - 1]);
      Wrap64Sum(Sum(rows[..|rows| - 1]), rows[|rows| - 1].byteSize);
    }
  }

  predicate NonNegative(rows: seq<LedgerRow>) {
    forall i :: 0 <= i < |rows| ==> rows[i].byteSize >= 0
  }

  lemma {:induction false} SumNonNegative(rows: seq<LedgerRow>)
    requires NonNegative(rows)
    ensures Sum(rows) >= 0
  {
    if rows != [] {
      SumNonNegative(rows[..|rows| - 1]);
    }
  }

  function RowKeys(rows: seq<LedgerRow>): set<string> {
    set r | r in rows :: r.objectKey
  }

  ghost function LedgerKeys(ledger: seq<StoredRow>): set<string> {
    set r | r in ledger :: r.objectKey
  }

  // The rows mention a key once.
  ghost predicate DistinctRows(rows: seq<LedgerRow>) {
    rows == [] ||
    (DistinctRows(rows[..|rows| - 1]) && rows[|rows| - 1].objectKey !in RowKeys(rows[..|rows| - 1]))
  }

  lemma RowsAppend(rows: seq<LedgerRow>, row: LedgerRow)
    ensures Sum(rows + [row]) == Sum(rows) + row.byteSize
    ensures RowKeys(rows + [row]) == RowKeys(rows) + {row.objectKey}
    ensures NonNegative(rows) && row.byteSize >= 0 ==> NonNegative(rows + [row])
    ensures DistinctRows(rows + [row]) <==> DistinctRows(rows) && row.objectKey !in RowKeys(rows)
  {
    assert (rows + [row])[..|rows|] == rows;
    assert forall r :: r in rows + [row] <==> r in rows || r == row;
  }

  // The bytes the ledger holds for a user.
  function SumFor(ledger: seq<StoredRow>, userID: string): int {
    if ledger == [] then 0
    else
      var last := ledger[|ledger| - 1];
      SumFor(ledger[..|ledger| - 1], userID) + if last.userID == userID then last.byteSize else 0
  }

  // A stored row records a ledger row.
  predicate Records(s: StoredRow, userID: string, row: LedgerRow, now: int) {
    && s.userID == userID && s.objectKey == row.objectKey && s.byteSize == row.byteSize
    && s.createdAt == now && s.id != ""
    && (TrimSpace(row.id) != "" ==> s.id == TrimSpace(row.id))
    && s.kind == (if TrimSpace(row.kind) == "" then "output" else TrimSpace(row.kind))
    && s.jobID == TrimSpace(row.jobID)
  }

  // ledger' is ledger followed by the records of rows.
  ghost predicate Extended(ledger: seq<StoredRow>, ledger': seq<StoredRow>, userID: string, rows: seq<LedgerRow>,
                           now: int)
  {
    && |ledger'| == |ledger| + |rows|
    && ledger'[..|ledger|] == ledger
    && forall i :: 0 <= i < |rows| ==> Records(ledger'[|ledger| + i], userID, rows[i], now)
  }

  ghost predicate UniqueIds(ledger: seq<StoredRow>) {
    forall i, j :: 0 <= i < j < |ledger| ==> ledger[i].id != ledger[j].id
  }

  // What one call of AppendLedgerAfterUpload may do to the database.
  ghost predicate AppendOutcome(db: Db, db': Db, userID: string, rows: seq<LedgerRow>, now: int,
                                err: Option<AppendError>)
  {
    if err.None? && userID != "" && rows != [] then
      && userID in db.accounts && NonNegative(rows)
      && var a := db.accounts[userID];
      && IsInt64(a.used + WrapSum(rows)) && a.used + WrapSum(rows) <= a.quota
      && db'.accounts == db.accounts[userID := a.(used := a.used + WrapSum(rows))]
      && Extended(db.ledger, db'.ledger, userID, rows, now)
      && (UniqueIds(db.ledger) ==> UniqueIds(db'.ledger))
    else
      db' == db
  }

  // Every user's used bytes are the sum of the user's ledger rows.
  ghost predicate Balanced(db: Db) {
    && (forall u :: u in db.accounts ==>
          db.accounts[u].used == SumFor(db.ledger, u) && db.accounts[u].used >= 0 && db.accounts[u].quota >= 0)
    && (forall r :: r in db.ledger ==> r.userID in db.accounts && r.byteSize >= 0)
  }

  // ledger' without its last row extends ledger by one row less.
  lemma ExtendedButOne(ledger: seq<StoredRow>, ledger': seq<StoredRow>, userID: string, rows: seq<LedgerRow>, now: int)
    requires Extended(ledger, ledger', userID, rows, now) && rows != []
    ensures Extended(ledger, ledger'[..|ledger'| - 1], userID, rows[..|rows| - 1], now)
    ensures Records(ledger'[|ledger'| - 1], userID, rows[|rows| - 1], now)
    ensures ledger'[|ledger'| - 1].objectKey == rows[|rows| - 1].objectKey
    ensures ledger'[|ledger'| - 1].byteSize == rows[|rows| - 1].byteSize
    ensures ledger'[|ledger'| - 1].userID == userID
  {
    var n := |rows| - 1;
    var before := ledger'[..|ledger'| - 1];
    assert before[..|ledger|] == ledger;
    assert forall i :: 0 <= i < n ==> before[|ledger| + i] == ledger'[|ledger| + i] && rows[..n][i] == rows[i];
    assert Records(ledger'[|ledger| + n], userID, rows[n], now);
  }

  lemma {:induction false} SumForExtended(ledger: seq<StoredRow>, ledger': seq<StoredRow>, userID: string,
                                          rows: seq<LedgerRow>, now: int, u: string)
    requires Extended(ledger, ledger', userID, rows, now)
    ensures SumFor(ledger', u) == SumFor(ledger, u) + if u == userID then Sum(rows) else 0
  {
    if rows == [] {
      assert ledger' == ledger;
    } else {
      ExtendedButOne(ledger, ledger', userID, rows, now);
      hide Extended, Records;
      SumForExtended(ledger, ledger'[..|ledger'| - 1], userID, rows[..|rows| - 1], now, u);
      SumForLast(ledger', u);
    }
  }

  lemma SumForLast(ledger: seq<StoredRow>, u: string)
    requires ledger != []
    ensures var last := ledger[|ledger| - 1];
            SumFor(ledger, u) == SumFor(ledger[..|ledger| - 1], u) + if last.userID == u then last.byteSize else 0
  {
  }

  /**
   A committed append keeps every balance exactly when the batch's total fits an int64: then
   the locked account stays within its quota; otherwise Go's sum has wrapped around.
   */
  lemma AppendKeepsBalance(db: Db, db': Db, userID: string, rows: seq<LedgerRow>, now: int)
    requires Balanced(db) && AppendOutcome(db, db', userID, rows, now, None)
    requires userID != "" && rows != []
    ensures Balanced(db') <==> Sum(rows) <= MAX64
    ensures db'.accounts[userID].used <= db'.accounts[userID].quota == db.accounts[userID].quota
  {
    hide UniqueIds, Extended, Wrap64, Sum, WrapSum, SumFor;
    SumNonNegative(rows);
    WrapSumIsWrappedSum(rows);
    Wrap64Exact(Sum(rows));
    assert forall u :: u in db'.accounts ==> u in db.accounts;
    forall u
      ensures SumFor(db'.ledger, u) == SumFor(db.ledger, u) + if u == userID then Sum(rows) else 0
    {
      SumForExtended(db.ledger, db'.ledger, userID, rows, now, u);
    }
    if Sum(rows) <= MAX64 {
      RowsStayOwned(db, db', userID, rows, now);
    } else {
      assert db'.accounts[userID].used != SumFor(db'.ledger, userID);
    }
  }

  lemma RowsStayOwned(db: Db, db': Db, userID: string, rows: seq<LedgerRow>, now: int)
    requires Balanced(db) && NonNegative(rows) && userID in db.accounts
    requires Extended(db.ledger, db'.ledger, userID, rows, now) && db'.accounts.Keys == db.accounts.Keys
    ensures forall r :: r in db'.ledger ==> r.userID in db'.accounts && r.byteSize >= 0
  {
    forall r | r in db'.ledger
      ensures r.userID in db'.accounts && r.byteSize >= 0
    {
      var i :| 0 <= i < |db'.ledger| && db'.ledger[i] == r;
      if i < |db.ledger| {
        assert db'.ledger[..|db.ledger|][i] == r;
      } else {
        assert Records(db'.ledger[|db.ledger| + (i - |db.ledger|)], userID, rows[i - |db.ledger|], now);
      }
    }
  }

  // Two rows are enough to make the sum wrap: the append commits and the balance is lost.
  lemma WrappedAppend() returns (db: Db, db': Db, rows: seq<LedgerRow>)
    ensures Balanced(db) && AppendOutcome(db, db', "u", rows, 1, None) && !Balanced(db')
    ensures forall r :: r in rows ==> 0 <= r.byteSize <= MAX64
  {
    db := Db(map["u" := Account(0, 0)], []);
    var r0, r1 := LedgerRow("a", "k0", MAX64, "x", ""), LedgerRow("b", "k1", 1, "x", "");
    rows := [r0, r1];
    TrimSpaceFixed("a"); TrimSpaceFixed("b"); TrimSpaceFixed("x"); TrimSpaceFixed("");
    var s0, s1 := StoredRow("a", "u", "k0", MAX64, "x", "", 1), StoredRow("b", "u", "k1", 1, "x", "", 1);
    assert rows[..1] == [r0] && [r0][..0] == [] && rows[1] == r1;
    assert Sum([r0]) == MAX64 && Sum(rows) == MAX64 + 1;
    WrapSumIsWrappedSum(rows);
    assert WrapSum(rows) == MIN64;
    db' := Db(map["u" := Account(MIN64, 0)], [s0, s1]);
    assert db'.ledger[..0] == [];
    assert Records(s0, "u", r0, 1) && Records(s1, "u", r1, 1);
  }

  // Adding delta bytes would take the user over the quota.
  ghost predicate Exceeds(db: Db, userID: string, delta: int) {
    userID in db.accounts && Wrap64(db.accounts[userID].used + delta) > db.accounts[userID].quota
  }

  class QuotaDb {
    var accounts: map<string, Account>
    var ledger: seq<StoredRow>

    constructor ()
      ensures accounts == map[] && ledger == []
    {
      accounts := map[];
      ledger := [];
    }

    ghost function View(): Db
      reads this
    {
      Db(accounts, ledger)
    }

    // now is the transaction's clock reading; env.draw(i) the i-th random identifier.
    method AppendLedgerAfterUpload(userID: string, rows: seq<LedgerRow>, now: int, env: TxEnv)
      returns (err: Option<AppendError>)
      requires UniqueIds(ledger)
      modifies this
      ensures AppendOutcome(old(View()), View(), userID, rows, now, err)
      ensures UniqueIds(ledger)
      ensures err == Some(QuotaExceeded) <==>
                && userID != "" && rows != [] && env.begins && NonNegative(rows)
                && Exceeds(old(View()), userID, WrapSum(rows))
    {
      if userID == "" || |rows| == 0 {
        return None;
      }
      if !env.begins {
        return Some(Failed);
      }
      if userID !in accounts {
        return Some(UserMissing);
      }
      var used, quota := accounts[userID].used, accounts[userID].quota;
      var negative, delta := AddUp(rows);
      if negative {
        return Some(NegativeSize);
      }
      if Wrap64(used + delta) > quota {
        return Some(QuotaExceeded);
      }
      var ok, txLedger := InsertAll(ledger, userID, rows, now, env);
      if !ok || !env.bumps || !IsInt64(used + delta) || !env.commits {
        return Some(Failed);
      }
      Wrap64Exact(used + delta);
      ledger := txLedger;
      accounts := accounts[userID := Account(used + delta, quota)];
      return None;
    }

    // Reads without a lock: the answer may be stale by the time it is used.
    method CheckQuota(userID: string, delta: int) returns (ok: bool, used: int, quota: int, found: bool)
      ensures found <==> userID == "" || userID in accounts
      ensures userID == "" ==> ok && used == quota == 0
      ensures userID != "" && userID in accounts ==>
                Account(used, quota) == accounts[userID] && ok == !Exceeds(View(), userID, delta)
      ensures !found ==> !ok
    {
      if userID == "" {
        return true, 0, 0, true;
      }
      if userID !in accounts {
        return false, 0, 0, false;
      }
      used, quota := accounts[userID].used, accounts[userID].quota;
      return Wrap64(used + delta) <= quota, used, quota, true;
    }

    // The changed row is written even when counting it fails.
    method AdminSetQuota(userID: string, quotaBytes: int, env: AdminEnv) returns (err: Option<QuotaError>)
      requires IsInt64(quotaBytes)
      modifies this
      ensures err == Some(Rejected) <==> TrimSpace(userID) == "" || quotaBytes < 0
      ensures View() == if err != Some(Rejected) && env.writes && userID in old(accounts)
                        then WithQuota(old(View()), userID, quotaBytes) else old(View())
      ensures err.None? ==> userID in old(accounts) && accounts[userID].quota == quotaBytes
      ensures err == Some(NoUser) ==> View() == old(View())
      ensures err == Some(NoUser) && userID in old(accounts) <==>
                && err != Some(Rejected) && env.writes && env.counts && !env.countsUnchanged
                && userID in old(accounts) && old(accounts)[userID].quota == quotaBytes
      ensures err == Some(NotDone) <==> err != Some(Rejected) && !(env.writes && env.counts)
    {
      if TrimSpace(userID) == "" || quotaBytes < 0 {
        return Some(Rejected);
      }
      if !env.writes {
        return Some(NotDone);
      }
      var affected := false;
      if userID in accounts {
        affected := env.countsUnchanged || accounts[userID].quota != quotaBytes;
        accounts := accounts[userID := accounts[userID].(quota := quotaBytes)];
      }
      if !env.counts {
        return Some(NotDone);
      }
      return if affected then None else Some(NoUser);
    }

    // The new quota, when there is no error.
    method AdminAdjustQuota(userID: string, delta: int, env: AdminEnv) returns (err: Option<QuotaError>, quota: int)
      requires IsInt64(delta)
      modifies this
      ensures err == Some(NoUser) <==>
                TrimSpace(userID) != "" && env.begins && env.selects && userID !in old(accounts)
      ensures err.None? <==>
                && TrimSpace(userID) != "" && env.begins && env.selects && userID in old(accounts)
                && Wrap64(old(accounts)[userID].quota + delta) >= 0 && env.writes && env.commits
      ensures err == Some(Rejected) <==>
                || TrimSpace(userID) == ""
                || (env.begins && env.selects && userID in old(accounts)
                    && Wrap64(old(accounts)[userID].quota + delta) < 0)
      ensures View() == if err.None? then WithQuota(old(View()), userID, quota) else old(View())
      ensures err.None? && 0 <= old(accounts)[userID].quota <= MAX64 ==>
                quota == old(accounts)[userID].quota + delta >= 0
    {
      if TrimSpace(userID) == "" {
        return Some(Rejected), 0;
      }
      if !env.begins || !env.selects {
        return Some(NotDone), 0;
      }
      if userID !in accounts {
        return Some(NoUser), 0;
      }
      var newQuota := Wrap64(accounts[userID].quota + delta);
      if newQuota < 0 {
        return Some(Rejected), 0;
      }
      if !env.writes || !env.commits {
        return Some(NotDone), 0;
      }
      accounts := accounts[userID := accounts[userID].(quota := newQuota)];
      return None, newQuota;
    }
  }

  ghost function WithQuota(db: Db, userID: string, quota: int): Db
    requires userID in db.accounts
  {
    db.(accounts := db.accounts[userID := db.accounts[userID].(quota := quota)])
  }

  method AddUp(rows: seq<LedgerRow>) returns (negative: bool, delta: int)
    ensures negative <==> !NonNegative(rows)
    ensures !negative ==> delta == WrapSum(rows)
  {
    delta := 0;
    assert rows[..0] == [];
    for i := 0 to |rows|
      invariant delta == WrapSum(rows[..i])
      invariant forall k :: 0 <= k < i ==> rows[k].byteSize >= 0
    {
      if rows[i].byteSize < 0 {
        return true, delta;
      }
      assert rows[..i + 1][..i] == rows[..i];
      delta := Wrap64(delta + rows[i].byteSize);
    }
    assert rows[..|rows|] == rows;
    return false, delta;
  }

  // Inserts the rows one by one; the id column is a primary key.
  method InsertAll(ledger: seq<StoredRow>, userID: string, rows: seq<LedgerRow>, now: int, env: TxEnv)
    returns (ok: bool, ledger': seq<StoredRow>)
    requires UniqueIds(ledger)
    ensures ok ==> Extended(ledger, ledger', userID, rows, now) && UniqueIds(ledger')
  {
    ledger' := ledger;
    for i := 0 to |rows|
      invariant |ledger'| == |ledger| + i && ledger'[..|ledger|] == ledger
      invariant forall k :: 0 <= k < i ==> Records(ledger'[|ledger| + k], userID, rows[k], now)
      invariant UniqueIds(ledger')
    {
      var id := TrimSpace(rows[i].id);
      if id == "" {
        var drawn := env.draw(i);
        if drawn.None? || drawn.value == "" {
          return false, ledger;
        }
        id := drawn.value;
      }
      var kind := TrimSpace(rows[i].kind);
      if kind == "" {
        kind := "output";
      }
      var taken := exists k :: 0 <= k < |ledger'| && ledger'[k].id == id;
      if !env.inserts(i) || taken {
        return false, ledger;
      }
      ledger' := ledger' + [StoredRow(id, userID, rows[i].objectKey, rows[i].byteSize, kind, TrimSpace(rows[i].jobID),
                                      now)];
    }
    return true, ledger';
  }
}
