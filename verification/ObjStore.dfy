/**
 The in-memory object store of pkg/objstore/objstore.go and the compensation shared by the
 three uploads of internal/api/oss_materialize.go.
 */
module ObjStore {
  import opened GoStrings
  import opened Quota

  newtype Byte = x: int | 0 <= x < 256

  type Bytes = seq<Byte>

  // One object an upload has put, with what its ledger row says besides key and size.
  datatype Blob = Blob(key: string, body: Bytes, kind: string, id: string, jobID: string)

  // What the calls made by one upload answer: base64 decoding, the public URL of a key,
  // whether the put of a key works, the random identifiers, and the transaction.
  datatype Env = Env(decode: string -> Option<Bytes>, resolve: string -> Option<string>, putWorks: string -> bool,
                     draw: nat -> Option<string>, now: int, tx: TxEnv)

  datatype UploadError =
    | NoStore
    | BadImage(at: nat)
    | PutFailed(at: nat)
    | NoURL(at: nat)
    | NoRandom
    | OverQuota
    | UnknownUser
    | Ledger(cause: AppendError)

  function RowOf(b: Blob): LedgerRow {
    LedgerRow(b.id, b.key, |b.body|, b.kind, b.jobID)
  }

  function RowsOf(blobs: seq<Blob>): (rows: seq<LedgerRow>)
    ensures |rows| == |blobs|
    ensures forall i :: 0 <= i < |rows| ==> rows[i] == RowOf(blobs[i])
  {
    seq(|blobs|, i requires 0 <= i < |blobs| => RowOf(blobs[i]))
  }

  // The store after putting the blobs one after the other.
  function Stored(before: map<string, Bytes>, blobs: seq<Blob>): map<string, Bytes> {
    if blobs == [] then before
    else Stored(before, blobs[..|blobs| - 1])[blobs[|blobs| - 1].key := blobs[|blobs| - 1].body]
  }

  lemma StoredAppend(before: map<string, Bytes>, blobs: seq<Blob>, b: Blob)
    ensures Stored(before, blobs + [b]) == Stored(before, blobs)[b.key := b.body]
    ensures RowsOf(blobs + [b]) == RowsOf(blobs) + [RowOf(b)]
  {
    assert (blobs + [b])[..|blobs|] == blobs;
  }

  lemma {:induction false} StoredConcat(before: map<string, Bytes>, a: seq<Blob>, b: seq<Blob>)
    ensures Stored(before, a + b) == Stored(Stored(before, a), b)
  {
    if b == [] {
      assert a + b == a;
    } else {
      assert (a + b)[..|a + b| - 1] == a + b[..|b| - 1];
      StoredConcat(before, a, b[..|b| - 1]);
    }
  }

  lemma RowsConcat(a: seq<Blob>, b: seq<Blob>)
    ensures RowsOf(a + b) == RowsOf(a) + RowsOf(b)
  {
  }

  ghost predicate DistinctBlobs(blobs: seq<Blob>) {
    forall i, j :: 0 <= i < j < |blobs| ==> blobs[i].key != blobs[j].key
  }

  lemma DistinctConcat(a: seq<Blob>, b: seq<Blob>)
    requires DistinctBlobs(a) && DistinctBlobs(b)
    requires forall x, y :: x in a && y in b ==> x.key != y.key
    ensures DistinctBlobs(a + b)
  {
  }

  lemma {:induction false} RowsRecordKeys(before: map<string, Bytes>, blobs: seq<Blob>)
    ensures Stored(before, blobs).Keys == before.Keys + RowKeys(RowsOf(blobs))
    ensures forall k :: k in before && k !in RowKeys(RowsOf(blobs)) ==> Stored(before, blobs)[k] == before[k]
    ensures NonNegative(RowsOf(blobs))
  {
    if blobs != [] {
      var init, last := blobs[..|blobs| - 1], blobs[|blobs| - 1];
      RowsRecordKeys(before, init);
      assert RowsOf(blobs) == RowsOf(init) + [RowOf(last)];
      RowsAppend(RowsOf(init), RowOf(last));
    }
  }

  lemma {:induction false} RowsAreDistinct(blobs: seq<Blob>)
    requires DistinctBlobs(blobs)
    ensures DistinctRows(RowsOf(blobs))
  {
    if blobs != [] {
      var n := |blobs| - 1;
      RowsAreDistinct(blobs[..n]);
      assert RowsOf(blobs)[..n] == RowsOf(blobs[..n]);
      forall i | 0 <= i < n
        ensures RowsOf(blobs[..n])[i].objectKey != blobs[n].key
      {
        assert blobs[i].key != blobs[n].key;
      }
    }
  }

  lemma {:induction false} BodiesAreStored(before: map<string, Bytes>, blobs: seq<Blob>, i: nat)
    requires DistinctBlobs(blobs) && i < |blobs|
    ensures blobs[i].key in Stored(before, blobs) && Stored(before, blobs)[blobs[i].key] == blobs[i].body
  {
    var n := |blobs| - 1;
    if i < n {
      assert blobs[i].key != blobs[n].key && blobs[..n][i] == blobs[i];
      BodiesAreStored(before, blobs[..n], i);
    }
  }

  // The rows list exactly the added objects, once each and with exact sizes; nothing else changed.
  ghost predicate RecordsExactly(before: map<string, Bytes>, after: map<string, Bytes>, rows: seq<LedgerRow>) {
    && DistinctRows(rows)
    && RowKeys(rows) !! before.Keys
    && after.Keys == before.Keys + RowKeys(rows)
    && (forall k :: k in before ==> after[k] == before[k])
    && forall row :: row in rows ==> row.objectKey in after && row.byteSize == |after[row.objectKey]|
  }

  lemma {:induction false} BlobsAreRecorded(before: map<string, Bytes>, blobs: seq<Blob>)
    requires DistinctBlobs(blobs) && forall b :: b in blobs ==> b.key !in before
    ensures RecordsExactly(before, Stored(before, blobs), RowsOf(blobs))
  {
    RowsRecordKeys(before, blobs);
    RowsAreDistinct(blobs);
    forall row | row in RowsOf(blobs)
      ensures row.objectKey !in before
      ensures row.objectKey in Stored(before, blobs) && row.byteSize == |Stored(before, blobs)[row.objectKey]|
    {
      var i :| 0 <= i < |blobs| && RowsOf(blobs)[i] == row;
      assert blobs[i] in blobs;
      BodiesAreStored(before, blobs, i);
    }
  }

  // The keys of some blobs, as a list and as a set.
  function KeyList(blobs: seq<Blob>): (keys: seq<string>)
    ensures |keys| == |blobs|
    ensures forall i :: 0 <= i < |keys| ==> keys[i] == blobs[i].key
  {
    seq(|blobs|, i requires 0 <= i < |blobs| => blobs[i].key)
  }

  function KeysOf(blobs: seq<Blob>): set<string> {
    if blobs == [] then {} else KeysOf(blobs[..|blobs| - 1]) + {blobs[|blobs| - 1].key}
  }

  lemma {:induction false} KeyIn(blobs: seq<Blob>, k: string)
    ensures k in KeysOf(blobs) <==> exists i :: 0 <= i < |blobs| && blobs[i].key == k
  {
    if blobs != [] {
      var n := |blobs| - 1;
      KeyIn(blobs[..n], k);
      if k in KeysOf(blobs) && blobs[n].key != k {
        var i :| 0 <= i < n && blobs[..n][i].key == k;
        assert blobs[i].key == k;
      }
      if i :| 0 <= i < |blobs| && blobs[i].key == k {
        assert i < n ==> blobs[..n][i].key == k;
      }
    }
  }

  lemma KeysConcat(a: seq<Blob>, b: seq<Blob>)
    ensures KeyList(a + b) == KeyList(a) + KeyList(b)
  {
  }

  // The blobs whose put was not lost.
  function Kept(blobs: seq<Blob>, lost: set<string>): seq<Blob> {
    if blobs == [] then []
    else
      var last := blobs[|blobs| - 1];
      Kept(blobs[..|blobs| - 1], lost) + if last.key in lost then [] else [last]
  }

  lemma {:induction false} KeptConcat(a: seq<Blob>, b: seq<Blob>, lost: set<string>)
    ensures Kept(a + b, lost) == Kept(a, lost) + Kept(b, lost)
  {
    if b == [] {
      assert a + b == a;
    } else {
      assert (a + b)[..|a + b| - 1] == a + b[..|b| - 1];
      KeptConcat(a, b[..|b| - 1], lost);
    }
  }

  lemma {:induction false} KeptAgree(blobs: seq<Blob>, lost: set<string>, lost': set<string>)
    requires forall b :: b in blobs ==> (b.key in lost <==> b.key in lost')
    ensures Kept(blobs, lost) == Kept(blobs, lost')
  {
    if blobs != [] {
      var n := |blobs| - 1;
      assert blobs[n] in blobs;
      KeptAgree(blobs[..n], lost, lost');
    }
  }

  lemma KeptJoin(a: seq<Blob>, b: seq<Blob>, lostA: set<string>, lostB: set<string>)
    requires (forall x :: x in a ==> x.key !in lostB) && forall y :: y in b ==> y.key !in lostA
    ensures Kept(a + b, lostA + lostB) == Kept(a, lostA) + Kept(b, lostB)
  {
    hide Kept;
    KeptConcat(a, b, lostA + lostB);
    KeptAgree(a, lostA, lostA + lostB);
    KeptAgree(b, lostB, lostA + lostB);
  }

  lemma {:induction false} KeptMembers(blobs: seq<Blob>, lost: set<string>)
    ensures forall b :: b in Kept(blobs, lost) <==> b in blobs && b.key !in lost
  {
    if blobs != [] {
      var n := |blobs| - 1;
      KeptMembers(blobs[..n], lost);
      KeptLast(blobs, lost);
      hide Kept;
      assert blobs == blobs[..n] + [blobs[n]];
    }
  }

  lemma {:induction false} KeptAreDistinct(blobs: seq<Blob>, lost: set<string>)
    requires DistinctBlobs(blobs)
    ensures DistinctBlobs(Kept(blobs, lost))
  {
    if blobs != [] {
      var n := |blobs| - 1;
      var before, last := blobs[..n], [blobs[n]];
      LastDiffers(blobs);
      KeptAreDistinct(before, lost);
      KeptMembers(before, lost);
      KeptLast(blobs, lost);
      hide Kept, DistinctBlobs;
      DistinctConcat(Kept(before, lost), if blobs[n].key in lost then [] else last);
    } else {
      assert Kept(blobs, lost) == [];
    }
  }

  lemma LastDiffers(blobs: seq<Blob>)
    requires DistinctBlobs(blobs) && blobs != []
    ensures var n := |blobs| - 1;
            && DistinctBlobs(blobs[..n]) && DistinctBlobs([blobs[n]]) && DistinctBlobs([])
            && forall b :: b in blobs[..n] ==> b.key != blobs[n].key
  {
  }

  lemma KeptLast(blobs: seq<Blob>, lost: set<string>)
    requires blobs != []
    ensures var n := |blobs| - 1;
            Kept(blobs, lost) == Kept(blobs[..n], lost) + if blobs[n].key in lost then [] else [blobs[n]]
  {
  }

  // What compensation deletes for some listed keys: each under its trimmed form.
  function Deleted(keys: seq<string>): set<string> {
    set k | k in keys :: TrimSpace(k)
  }

  ghost predicate AllTrimmed(keys: seq<string>) {
    forall k :: k in keys ==> TrimSpace(k) == k
  }

  lemma DeletedKeys(blobs: seq<Blob>)
    requires AllTrimmed(KeyList(blobs))
    ensures Deleted(KeyList(blobs)) == KeysOf(blobs)
  {
    hide TrimSpace, KeysOf;
    var keys := KeyList(blobs);
    forall k
      ensures k in KeysOf(blobs) <==> k in keys
    {
      KeyIn(blobs, k);
    }
    assert forall k :: k in Deleted(keys) <==> k in keys;
  }

  // Whatever has changed, has changed under the listed keys.
  ghost predicate ChangedOnlyAt(before: map<string, Bytes>, objects: map<string, Bytes>, keys: seq<string>) {
    forall k :: k !in keys ==> (k in before <==> k in objects) && (k in before ==> objects[k] == before[k])
  }

  lemma ChangesCompose(a: map<string, Bytes>, b: map<string, Bytes>, c: map<string, Bytes>, keys: seq<string>,
                       more: seq<string>)
    requires ChangedOnlyAt(a, b, keys) && ChangedOnlyAt(b, c, more)
    ensures ChangedOnlyAt(a, c, keys + more)
  {
  }

  // Keys an upload may take back: nothing was stored under them before.
  ghost predicate NewKeys(before: map<string, Bytes>, keys: seq<string>) {
    forall k :: k in keys ==> k !in before && TrimSpace(k) == k
  }

  // Deleting everything that was listed leaves what was there before, less the listed keys.
  lemma Compensated(before: map<string, Bytes>, objects: map<string, Bytes>, keys: seq<string>)
    requires ChangedOnlyAt(before, objects, keys) && AllTrimmed(keys)
    ensures objects - Deleted(keys) == before - Deleted(keys)
    ensures NewKeys(before, keys) ==> objects - Deleted(keys) == before
  {
    hide TrimSpace;
    assert forall k :: k in keys ==> k in Deleted(keys);
  }

  class Fake {
    var objects: map<string, Bytes>

    constructor ()
      ensures objects == map[]
    {
      objects := map[];
    }

    // works: a failed put stores nothing.
    method Put(key: string, body: Bytes, works: bool) returns (ok: bool)
      modifies this
      ensures ok == works
      ensures objects == if ok then old(objects)[key := body] else old(objects)
    {
      if works {
        objects := objects[key := body];
      }
      return works;
    }

    method Delete(key: string)
      modifies this
      ensures objects == old(objects) - {key}
    {
      objects := objects - {key};
    }

    // Deletes every listed object, under its trimmed key.
    method DeleteAll(keys: seq<string>)
      modifies this
      ensures objects == old(objects) - Deleted(keys)
    {
      hide TrimSpace;
      for i := 0 to |keys|
        invariant objects == old(objects) - Deleted(keys[..i])
      {
        Delete(TrimSpace(keys[i]));
        assert keys[..i + 1] == keys[..i] + [keys[i]];
        assert Deleted(keys[..i + 1]) == Deleted(keys[..i]) + {TrimSpace(keys[i])};
      }
      assert keys[..|keys|] == keys;
    }
  }

  // Records what has been put; when that fails, deletes it again. All three uploads end so.
  method Record(st: Fake, db: QuotaDb?, userID: string, ledger: seq<LedgerRow>, keys: seq<string>, now: int, env: TxEnv)
    returns (err: Option<AppendError>)
    requires db != null ==> UniqueIds(db.ledger)
    modifies st, db
    ensures db != null ==> UniqueIds(db.ledger) && AppendOutcome(old(db.View()), db.View(), userID, ledger, now, err)
    ensures st.objects == if err.None? then old(st.objects) else old(st.objects) - Deleted(keys)
    ensures db == null || ledger == [] ==> err.None?
  {
    err := None;
    if db != null && |ledger| > 0 {
      err := db.AppendLedgerAfterUpload(userID, ledger, now, env);
      if err.Some? {
        st.DeleteAll(keys);
      }
    }
  }

  // How an upload ends in the database: it fails by itself, or its rows are refused or recorded.
  ghost predicate Ends(before: Db, after: Db, userID: string, rows: seq<LedgerRow>, now: int,
                       failure: Option<UploadError>, err: Option<UploadError>)
  {
    if err.None? then failure.None? && AppendOutcome(before, after, userID, rows, now, None)
    else after == before && if failure.Some? then err == failure else err.value.Ledger?
  }

  // The position of the first false, or the length.
  function FirstFalse(works: seq<bool>): (f: nat)
    ensures f <= |works|
    ensures f < |works| ==> !works[f]
    ensures forall i :: 0 <= i < f ==> works[i]
  {
    if works == [] || !works[0] then 0 else 1 + FirstFalse(works[1..])
  }

  // How one put and the resolution of its URL end.
  datatype PutEnd = Resolved(url: string) | NotPut | Unresolved

  function PutEndOf(env: Env, key: string): PutEnd {
    if !env.putWorks(key) then NotPut
    else if env.resolve(key).None? then Unresolved
    else Resolved(env.resolve(key).value)
  }

  // Puts one object after others and resolves its URL; on an error everything is taken back.
  method PutTracked(st: Fake, key: string, body: Bytes, keys: seq<string>, env: Env, ghost before: map<string, Bytes>)
    returns (end: PutEnd, keys': seq<string>)
    requires ChangedOnlyAt(before, st.objects, keys) && NewKeys(before, keys + [key])
    modifies st
    ensures end == PutEndOf(env, key)
    ensures !end.Resolved? ==> st.objects == before
    ensures end.Resolved? ==>
              st.objects == old(st.objects)[key := body] && keys' == keys + [key]
                && ChangedOnlyAt(before, st.objects, keys')
  {
    keys' := keys + [key];
    var ok := st.Put(key, body, env.putWorks(key));
    assert ChangedOnlyAt(old(st.objects), st.objects, [key]);
    ChangesCompose(before, old(st.objects), st.objects, keys, [key]);
    Compensated(before, st.objects, keys');
    if !ok {
      st.DeleteAll(keys');
      return NotPut, keys';
    }
    var pub := env.resolve(key);
    if pub.None? {
      st.DeleteAll(keys');
      return Unresolved, keys';
    }
    return Resolved(pub.value), keys';
  }

  // The total size of some bodies, in an int64.
  function WrapSize(bodies: seq<Bytes>): int {
    if bodies == [] then 0 else Wrap64(WrapSize(bodies[..|bodies| - 1]) + |bodies[|bodies| - 1]|)
  }

  // The size the unlocked check asks about is the size the ledger is charged.
  lemma {:induction false} CheckedSizeIsCharged(bodies: seq<Bytes>, blobs: seq<Blob>)
    requires |bodies| == |blobs|
    requires forall i :: 0 <= i < |bodies| ==> blobs[i].body == bodies[i]
    ensures WrapSum(RowsOf(blobs)) == WrapSize(bodies)
  {
    if bodies != [] {
      var n := |bodies| - 1;
      CheckedSizeIsCharged(bodies[..n], blobs[..n]);
      assert RowsOf(blobs)[..n] == RowsOf(blobs[..n]);
    }
  }
}
