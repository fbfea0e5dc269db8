/**
 Storing a user's reference images (uploadReferenceImagesToOSS in
 internal/api/oss_materialize.go): decode everything, check the quota without a lock, put
 the images one by one under random keys, record them, and take everything back on failure.
 */
module ReferenceUpload {
  import opened GoStrings
  import opened ObjectKeys
  import opened ObjStore
  import opened Quota

  datatype Reference = Ref(mimeType: string, b64: string)

  datatype Uploaded = Uploaded(id: string, url: string, mimeType: string)

  // The upload of a list of references; reference i draws the random identifiers 2i and 2i + 1.
  datatype Upload = Upload(env: Env, userID: string, refs: seq<Reference>)
  {
    function Body(i: nat): Option<Bytes>
      requires i < |refs|
    {
      env.decode(TrimSpace(refs[i].b64))
    }

    function Mime(i: nat): string
      requires i < |refs|
    {
      OrPNG(TrimSpace(refs[i].mimeType))
    }

    predicate Decodes() {
      forall i :: 0 <= i < |refs| ==> Body(i).Some?
    }

    predicate Drawn(i: nat) {
      env.draw(2 * i).Some? && env.draw(2 * i + 1).Some?
    }

    function Name(i: nat): ObjectName
      requires i < |refs| && Drawn(i)
    {
      ObjectName.Reference(env.draw(2 * i + 1).value, ExtForMIME(Mime(i)))
    }

    predicate Works(i: nat)
      requires i < |refs|
    {
      Drawn(i) && PutEndOf(env, Key(userID, Name(i))).Resolved?
    }

    // How reference i fails.
    function FailureAt(i: nat): (e: UploadError)
      requires i < |refs|
      ensures e.NoRandom? || e.PutFailed? || e.NoURL?
    {
      if !Drawn(i) then NoRandom
      else if PutEndOf(env, Key(userID, Name(i))).NotPut? then PutFailed(i)
      else NoURL(i)
    }

    function WorksList(): (works: seq<bool>)
      ensures |works| == |refs|
      ensures forall i :: 0 <= i < |works| ==> works[i] == Works(i)
    {
      seq(|refs|, i requires 0 <= i < |refs| => Works(i))
    }

    // The first reference that fails, or the number of references.
    function FirstFailing(): (f: nat)
      ensures f <= |refs|
    {
      FirstFalse(WorksList())
    }

    // How the upload fails, if some reference does.
    function Failure(): (e: Option<UploadError>)
      ensures e.Some? ==> e.value.NoRandom? || e.value.PutFailed? || e.value.NoURL?
    {
      if FirstFailing() < |refs| then Some(FailureAt(FirstFailing())) else None
    }

    // The object of reference i, once its identifiers are drawn.
    function TryAt(i: nat): Blob
      requires i < |refs| && Drawn(i) && Body(i).Some?
    {
      Blob(Key(userID, Name(i)), Body(i).value, "reference", env.draw(2 * i).value, "")
    }

    function BlobAt(i: nat): Blob
      requires i < |refs| && Works(i) && Body(i).Some?
    {
      TryAt(i)
    }

    function AssetAt(i: nat): Uploaded
      requires i < |refs| && Works(i)
    {
      Uploaded(env.draw(2 * i).value, env.resolve(Key(userID, Name(i))).value, Mime(i))
    }

    predicate Succeeds() {
      Decodes() && forall i :: 0 <= i < |refs| ==> Works(i)
    }

    ghost function Blobs(): (blobs: seq<Blob>)
      requires Succeeds()
      ensures |blobs| == |refs|
      ensures forall i :: 0 <= i < |blobs| ==> blobs[i] == BlobAt(i)
    {
      seq(|refs|, i requires 0 <= i < |refs| => BlobAt(i))
    }

    ghost function Rows(): seq<LedgerRow> {
      if Succeeds() then RowsOf(Blobs()) else []
    }

    // How many objects the upload tries to put: those before the failing one, and that one
    // once its identifiers are drawn.
    function TriedCount(): (n: nat)
      ensures n <= |refs|
    {
      if FirstFailing() < |refs| && Drawn(FirstFailing()) then FirstFailing() + 1 else FirstFailing()
    }

    ghost function TriesTo(n: nat): (blobs: seq<Blob>)
      requires n <= |refs| && Decodes() && forall i :: 0 <= i < n ==> Drawn(i)
      ensures |blobs| == n
      ensures forall i :: 0 <= i < |blobs| ==> blobs[i] == TryAt(i)
    {
      seq(n, i requires 0 <= i < n => TryAt(i))
    }

    ghost function Tried(): seq<Blob>
      requires Decodes()
    {
      TriedAreDrawn(this);
      TriesTo(TriedCount())
    }

    ghost function Bodies(): (bodies: seq<Bytes>)
      requires Decodes()
      ensures |bodies| == |refs|
      ensures forall i :: 0 <= i < |bodies| ==> bodies[i] == Body(i).value
    {
      seq(|refs|, i requires 0 <= i < |refs| => Body(i).value)
    }
  }

  // What the first n references put, and nothing else has been stored.
  ghost predicate Progress(u: Upload, n: nat, assets: seq<Uploaded>, blobs: seq<Blob>, keys: seq<string>,
                           before: map<string, Bytes>, objects: map<string, Bytes>)
  {
    && n <= |u.refs| && u.Decodes() && |assets| == |blobs| == n
    && (forall i :: 0 <= i < n ==> u.Works(i) && assets[i] == u.AssetAt(i) && blobs[i] == u.BlobAt(i))
    && objects == Stored(before, blobs)
    && ChangedOnlyAt(before, objects, keys) && NewKeys(before, keys)
  }

  // Random identifiers are hexadecimal, never repeat, and name no stored object.
  ghost predicate FreshDraws<V>(env: Env, userID: string, objects: map<string, V>) {
    && (forall i :: env.draw(i).Some? ==> '/' !in env.draw(i).value)
    && (forall i, j :: i < j && env.draw(i).Some? && env.draw(j).Some? ==> env.draw(i).value != env.draw(j).value)
    && (forall i, ext :: env.draw(i).Some? ==> Key(userID, ObjectName.Reference(env.draw(i).value, ext)) !in objects)
  }

  method DecodeAll(refs: seq<Reference>, env: Env, ghost u: Upload)
    returns (err: Option<UploadError>, decoded: seq<Bytes>, mimes: seq<string>, sum: int)
    requires u.env == env && u.refs == refs
    ensures err.None? <==> u.Decodes()
    ensures err.Some? ==> err.value.BadImage? && err.value.at < |refs| && u.Body(err.value.at).None?
    ensures err.Some? ==> forall i :: 0 <= i < err.value.at ==> u.Body(i).Some?
    ensures err.None? ==> |decoded| == |mimes| == |refs| && sum == WrapSize(decoded)
    ensures err.None? ==> forall i :: 0 <= i < |refs| ==> u.Body(i) == Some(decoded[i]) && mimes[i] == u.Mime(i)
  {
    hide Upload.Works, Upload.Drawn, TrimSpace, Wrap64;
    decoded, mimes, sum, err := [], [], 0, None;
    for i := 0 to |refs|
      invariant |decoded| == |mimes| == i && sum == WrapSize(decoded)
      invariant forall k :: 0 <= k < i ==> u.Body(k) == Some(decoded[k]) && mimes[k] == u.Mime(k)
    {
      var raw := env.decode(TrimSpace(refs[i].b64));
      if raw.None? {
        assert u.Body(i).None?;
        return Some(BadImage(i)), decoded, mimes, sum;
      }
      var mt := TrimSpace(refs[i].mimeType);
      if mt == "" {
        mt := "image/png";
      }
      sum := Wrap64(sum + |raw.value|);
      assert (decoded + [raw.value])[..i] == decoded;
      decoded := decoded + [raw.value];
      mimes := mimes + [mt];
    }
  }

  lemma NextKeyIsNew(u: Upload, n: nat, keys: seq<string>, before: map<string, Bytes>)
    requires n < |u.refs| && u.Drawn(n) && FreshDraws(u.env, u.userID, before) && NewKeys(before, keys)
    ensures NewKeys(before, keys + [Key(u.userID, u.Name(n))])
  {
    KeyIsTrimmed(u.userID, u.Name(n));
    assert u.env.draw(2 * n + 1).Some?;
    assert Key(u.userID, ObjectName.Reference(u.env.draw(2 * n + 1).value, u.Name(n).refExt)) !in before;
  }

  lemma FirstFailingIs(u: Upload)
    ensures u.FirstFailing() < |u.refs| ==> !u.Works(u.FirstFailing())
    ensures forall i :: 0 <= i < u.FirstFailing() ==> u.Works(i)
  {
    hide Upload.Works;
    forall i | 0 <= i < u.FirstFailing()
      ensures u.Works(i)
    {
      assert u.WorksList()[i];
    }
  }

  lemma TriedAreDrawn(u: Upload)
    ensures forall i :: 0 <= i < u.TriedCount() ==> u.Drawn(i)
  {
    hide Upload.Drawn, Upload.FirstFailing, Upload.Works;
    FirstFailingIs(u);
    forall i | 0 <= i < u.FirstFailing()
      ensures u.Drawn(i)
    {
      WorksIsDrawn(u, i);
    }
  }

  lemma WorksIsDrawn(u: Upload, i: nat)
    requires i < |u.refs| && u.Works(i)
    ensures u.Drawn(i)
  {
  }

  // The upload fails as its first failing reference does, and only if there is one.
  lemma FailsFirst(u: Upload, i: nat)
    requires i <= |u.refs| && (i < |u.refs| ==> !u.Works(i)) && forall k :: 0 <= k < i ==> u.Works(k)
    ensures u.Failure() == if i < |u.refs| then Some(u.FailureAt(i)) else None
  {
    hide Upload.Works, Upload.FailureAt;
    FirstFailingIs(u);
    assert u.FirstFailing() == i;
  }

  lemma Started(u: Upload, before: map<string, Bytes>)
    requires u.Decodes()
    ensures Progress(u, 0, [], [], [], before, before)
  {
  }

  lemma {:induction false} Advanced(u: Upload, n: nat, assets: seq<Uploaded>, blobs: seq<Blob>, keys: seq<string>,
                                    keys': seq<string>, before: map<string, Bytes>, objects: map<string, Bytes>,
                                    objects': map<string, Bytes>)
    requires Progress(u, n, assets, blobs, keys, before, objects) && n < |u.refs| && u.Works(n)
    requires objects' == objects[u.BlobAt(n).key := u.BlobAt(n).body]
    requires ChangedOnlyAt(before, objects', keys') && NewKeys(before, keys')
    ensures Progress(u, n + 1, assets + [u.AssetAt(n)], blobs + [u.BlobAt(n)], keys', before, objects')
    ensures RowsOf(blobs + [u.BlobAt(n)]) == RowsOf(blobs) + [RowOf(u.BlobAt(n))]
  {
    StoredAppend(before, blobs, u.BlobAt(n));
  }

  // The loop over the decoded references; on an error it has taken everything back.
  method PutReferences(st: Fake, userID: string, decoded: seq<Bytes>, mimes: seq<string>, env: Env, ghost u: Upload)
    returns (err: Option<UploadError>, assets: seq<Uploaded>, ghost blobs: seq<Blob>, rows: seq<LedgerRow>,
             keys: seq<string>)
    requires u.env == env && u.userID == userID && |decoded| == |mimes| == |u.refs| && u.Decodes()
    requires forall i :: 0 <= i < |u.refs| ==> u.Body(i) == Some(decoded[i]) && mimes[i] == u.Mime(i)
    requires FreshDraws(env, userID, st.objects)
    modifies st
    ensures err.Some? ==> st.objects == old(st.objects)
    ensures err == u.Failure()
    ensures err.None? ==> rows == RowsOf(blobs)
    ensures err.None? ==> Progress(u, |u.refs|, assets, blobs, keys, old(st.objects), st.objects)
  {
    hide Progress, FreshDraws, NewKeys, ChangedOnlyAt, Key, ExtForMIME, Deleted, Upload.Failure, Upload.Decodes;
    hide Upload.Mime;
    assets, blobs, rows, keys, err := [], [], [], [], None;
    ghost var before := st.objects;
    Started(u, before);
    for i := 0 to |decoded|
      invariant Progress(u, i, assets, blobs, keys, before, st.objects) && rows == RowsOf(blobs)
    {
      Tracked(u, i, assets, blobs, keys, before, st.objects);
      var ledgerID, suffix := env.draw(2 * i), env.draw(2 * i + 1);
      if ledgerID.None? || suffix.None? {
        FailsFirst(u, i);
        st.DeleteAll(keys);
        return Some(NoRandom), assets, blobs, rows, keys;
      }
      var logical := Key(userID, ObjectName.Reference(suffix.value, ExtForMIME(mimes[i])));
      NextKeyIsNew(u, i, keys, before);
      ghost var objects, was := st.objects, keys;
      var end;
      end, keys := PutTracked(st, logical, decoded[i], keys, env, before);
      if end.NotPut? {
        FailsFirst(u, i);
        return Some(PutFailed(i)), assets, blobs, rows, keys;
      }
      if end.Unresolved? {
        FailsFirst(u, i);
        return Some(NoURL(i)), assets, blobs, rows, keys;
      }
      assert u.Works(i);
      Advanced(u, i, assets, blobs, was, keys, before, objects, st.objects);
      assets := assets + [Uploaded(ledgerID.value, end.url, mimes[i])];
      rows := rows + [LedgerRow(ledgerID.value, logical, |decoded[i]|, "reference", "")];
      blobs := blobs + [u.BlobAt(i)];
    }
    Tracked(u, |u.refs|, assets, blobs, keys, before, st.objects);
    FailsFirst(u, |u.refs|);
  }

  lemma Tracked(u: Upload, n: nat, assets: seq<Uploaded>, blobs: seq<Blob>, keys: seq<string>,
                before: map<string, Bytes>, objects: map<string, Bytes>)
    requires Progress(u, n, assets, blobs, keys, before, objects)
    ensures n <= |u.refs| && forall i :: 0 <= i < n ==> u.Works(i)
    ensures ChangedOnlyAt(before, objects, keys) && NewKeys(before, keys)
    ensures objects - Deleted(keys) == before
  {
    Compensated(before, objects, keys);
  }

  // The upload has succeeded: one asset for each reference, and exactly their objects added.
  ghost predicate Done(u: Upload, assets: seq<Uploaded>, before: map<string, Bytes>, objects: map<string, Bytes>) {
    && u.Succeeds()
    && |assets| == |u.refs| && (forall i :: 0 <= i < |u.refs| ==> assets[i] == u.AssetAt(i))
    && objects == Stored(before, u.Blobs())
  }

  // Puts and records the decoded references.
  method StoreReferences(st: Fake, db: QuotaDb?, userID: string, decoded: seq<Bytes>, mimes: seq<string>, env: Env,
                         ghost u: Upload)
    returns (err: Option<UploadError>, assets: seq<Uploaded>)
    requires u.env == env && u.userID == userID && |decoded| == |mimes| == |u.refs| && u.Decodes()
    requires forall i :: 0 <= i < |u.refs| ==> u.Body(i) == Some(decoded[i]) && mimes[i] == u.Mime(i)
    requires FreshDraws(env, userID, st.objects) && (db != null ==> UniqueIds(db.ledger))
    modifies st, db
    ensures err.Some? ==> st.objects == old(st.objects) && assets == []
    ensures err.Some? ==> if u.Failure().Some? then err == u.Failure() else err.value.Ledger?
    ensures err.None? ==> u.Failure().None? && Done(u, assets, old(st.objects), st.objects)
    ensures err.Some? && db != null ==> db.View() == old(db.View())
    ensures db != null ==> Ends(old(db.View()), db.View(), userID, u.Rows(), env.now, u.Failure(), err)
  {
    hide FreshDraws, Stored, Upload.Works, Upload.Failure, Upload.BlobAt, Upload.AssetAt, UniqueIds;
    ghost var blobs;
    var rows, keys;
    err, assets, blobs, rows, keys := PutReferences(st, userID, decoded, mimes, env, u);
    if err.Some? {
      return err, [];
    }
    Tracked(u, |u.refs|, assets, blobs, keys, old(st.objects), st.objects);
    assert u.Succeeds() && blobs == u.Blobs();
    var failed := Record(st, db, userID, rows, keys, env.now, env.tx);
    if failed.Some? {
      return Some(Ledger(failed.value)), [];
    }
    return None, assets;
  }

  /**
   On any error nothing has changed. On success there is one asset for each reference, the
   store has gained exactly the references' objects, and their rows are in the ledger.
   */
  method UploadReferenceImages(st: Fake?, db: QuotaDb?, userID: string, refs: seq<Reference>, env: Env)
    returns (err: Option<UploadError>, assets: seq<Uploaded>)
    requires st != null ==> FreshDraws(env, userID, st.objects)
    requires db != null ==> UniqueIds(db.ledger)
    modifies st, db
    ensures st == null || userID == "" || refs == [] ==> err.None? && assets == []
    ensures (st == null || userID == "" || refs == [] || err.Some?) && st != null ==> st.objects == old(st.objects)
    ensures (st == null || userID == "" || refs == [] || err.Some?) && db != null ==> db.View() == old(db.View())
    ensures err.Some? ==> assets == []
    ensures st != null && userID != "" && refs != [] ==>
              var u := Upload(env, userID, refs);
              && (u.Decodes() <==> !(err.Some? && err.value.BadImage?))
              && (err == Some(OverQuota) ==>
                    db != null && u.Decodes() && Exceeds(old(db.View()), userID, WrapSize(u.Bodies())))
              && (u.Decodes() && err.Some? && err != Some(OverQuota) && err != Some(UnknownUser) ==>
                    if u.Failure().Some? then err == u.Failure() else err.value.Ledger?)
              && (db != null && u.Decodes() && err != Some(OverQuota) && err != Some(UnknownUser) ==>
                    Ends(old(db.View()), db.View(), userID, u.Rows(), env.now, u.Failure(), err))
    ensures st != null && userID != "" && refs != [] && err.None? ==>
              var u := Upload(env, userID, refs);
              && Done(u, assets, old(st.objects), st.objects)
  {
    hide FreshDraws, AppendOutcome, Ends, Upload.Rows, Exceeds, Stored, Upload.Works, Upload.Failure, UniqueIds;
    hide WrapSize;
    if st == null || userID == "" || |refs| == 0 {
      return None, [];
    }
    ghost var u := Upload(env, userID, refs);
    var decoded, mimes, sum;
    err, decoded, mimes, sum := DecodeAll(refs, env, u);
    if err.Some? {
      return err, [];
    }
    assert decoded == u.Bodies();
    if db != null {
      var ok, used, quota, found := db.CheckQuota(userID, sum);
      if !found {
        return Some(UnknownUser), [];
      }
      if !ok {
        return Some(OverQuota), [];
      }
    }
    err, assets := StoreReferences(st, db, userID, decoded, mimes, env, u);
  }

  lemma {:induction false} NamesDiffer<V>(u: Upload, i: nat, j: nat, before: map<string, V>)
    requires i < j < |u.refs| && u.Drawn(i) && u.Drawn(j)
    requires FreshDraws(u.env, u.userID, before)
    ensures Key(u.userID, u.Name(i)) != Key(u.userID, u.Name(j))
  {
    var a, b := u.Name(i), u.Name(j);
    assert a.Base() != b.Base() by {
      assert u.env.draw(2 * i + 1).value != u.env.draw(2 * j + 1).value;
    }
    if Key(u.userID, a) == Key(u.userID, b) {
      BaseHasNoSlash(a);
      BaseHasNoSlash(b);
      KeyParts(u.userID, a, u.userID, b);
    }
  }

  lemma NameIsNew<V>(u: Upload, i: nat, before: map<string, V>)
    requires i < |u.refs| && u.Drawn(i) && FreshDraws(u.env, u.userID, before)
    ensures Key(u.userID, u.Name(i)) !in before
  {
    assert u.env.draw(2 * i + 1).Some?;
    assert Key(u.userID, ObjectName.Reference(u.env.draw(2 * i + 1).value, u.Name(i).refExt)) !in before;
  }

  // No two objects an upload tries to put share a key, and none has been named before.
  lemma {:induction false} TriedAreNew<V>(u: Upload, before: map<string, V>)
    requires u.Decodes() && FreshDraws(u.env, u.userID, before)
    ensures DistinctBlobs(u.Tried())
    ensures forall b :: b in u.Tried() ==> b.key !in before
  {
    hide FreshDraws, Key, Upload.Name, Upload.Drawn, Upload.Decodes;
    TriedAreDrawn(u);
    var tried := u.Tried();
    forall i, j | 0 <= i < j < |tried|
      ensures tried[i].key != tried[j].key
    {
      NamesDiffer(u, i, j, before);
    }
    forall i | 0 <= i < |tried|
      ensures tried[i].key !in before
    {
      NameIsNew(u, i, before);
    }
  }

  // A successful upload has put everything it tried.
  lemma {:induction false} ReferenceBlobsAreDistinct(u: Upload, before: map<string, Bytes>)
    requires u.Succeeds() && FreshDraws(u.env, u.userID, before)
    ensures u.Tried() == u.Blobs() && DistinctBlobs(u.Blobs())
    ensures forall b :: b in u.Blobs() ==> b.key !in before
  {
    hide FreshDraws, DistinctBlobs, Upload.Name;
    FirstFailingIs(u);
    assert u.FirstFailing() == |u.refs|;
    assert u.Tried() == u.Blobs();
    TriedAreNew(u, before);
  }

  /**
   After a successful upload each asset's URL is that of an object holding exactly the
   reference's own bytes, its id is that of the object's row, and the rows record exactly
   what has been added. The check asked the quota for exactly what the ledger is charged.
   */
  lemma {:induction false} ReferencesAreServed(u: Upload, before: map<string, Bytes>, i: nat)
    requires u.Succeeds() && FreshDraws(u.env, u.userID, before) && i < |u.refs|
    ensures RecordsExactly(before, Stored(before, u.Blobs()), RowsOf(u.Blobs()))
    ensures var row, objects := RowsOf(u.Blobs())[i], Stored(before, u.Blobs());
            && row.id == u.AssetAt(i).id && row.objectKey in objects
            && Some(objects[row.objectKey]) == u.Body(i)
            && u.env.resolve(row.objectKey) == Some(u.AssetAt(i).url)
    ensures WrapSum(RowsOf(u.Blobs())) == WrapSize(u.Bodies())
  {
    hide FreshDraws, RecordsExactly, DistinctBlobs;
    assert u.Works(i);
    ReferenceBlobsAreDistinct(u, before);
    BlobsAreRecorded(before, u.Blobs());
    BodiesAreStored(before, u.Blobs(), i);
    CheckedSizeIsCharged(u.Bodies(), u.Blobs());
  }
}
