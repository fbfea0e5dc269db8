/**
 Moving a job's images into the object store (materializeJobOutputsOSS in
 internal/api/oss_materialize.go): an image that cannot be fetched stays where it is, every
 other one is stored under its own key, and any failure takes everything back.
 */
module OutputUpload {
  import opened GoStrings
  import opened Jobs
  import opened ObjectKeys
  import opened ObjStore
  import opened Quota

  // Where an image's bytes may come from besides its base64 text, and its thumbnail.
  datatype Source = Source(readArtifact: string -> Option<(Bytes, string)>, fetch: string -> Option<(Bytes, string)>,
                           thumbnail: (Bytes, string) -> Option<Bytes>)

  // The bytes of an image and their mime type.
  function ImageBytes(env: Env, src: Source, d: Image): Option<(Bytes, string)> {
    if TrimSpace(d.b64JSON) != "" then
      var raw := env.decode(TrimSpace(d.b64JSON));
      if raw.None? then None else Some((raw.value, OrPNG(TrimSpace(d.mimeType))))
    else
      var u := TrimSpace(d.url);
      if u == "" then None
      else if HasPrefix(u, "/api/artifacts/") then src.readArtifact(u)
      else
        var got := src.fetch(u);
        if got.None? then None
        else
          var mt := TrimSpace(d.mimeType);
          Some((got.value.0, if mt != "" then mt else OrPNG(TrimSpace(got.value.1))))
  }

  predicate IsRehostableRemoteImageURL(url: string) {
    var u := TrimSpace(url);
    if u == "" || HasPrefix(u, "/api/artifacts/") then false
    else HasPrefix(ToLower(u), "https://") || HasPrefix(ToLower(u), "http://")
  }

  // The upload of one image slot.
  datatype Slot = Slot(env: Env, src: Source, userID: string, jobID: string, at: nat, image: Image)
  {
    function Got(): Option<(Bytes, string)> {
      ImageBytes(env, src, image)
    }

    // A remote image that cannot be fetched is left alone.
    predicate Skipped() {
      Got().None? && IsRehostableRemoteImageURL(image.url) && TrimSpace(image.b64JSON) == ""
    }

    function PrimaryKey(): string
      requires Got().Some?
    {
      Key(userID, Primary(jobID, at, ExtForMIME(Got().value.1)))
    }

    function ThumbKey(): string {
      Key(userID, Thumb(jobID, at))
    }

    function Main(): Blob
      requires Got().Some?
    {
      Blob(PrimaryKey(), Got().value.0, "output", "", jobID)
    }

    // How the slot makes the whole upload fail, if it does.
    function Fault(): (f: Option<UploadError>)
      ensures f.Some? ==> f.value.BadImage? || f.value.PutFailed? || f.value.NoURL?
    {
      if Got().None? then (if Skipped() then None else Some(BadImage(at)))
      else
        match PutEndOf(env, PrimaryKey())
        case Resolved(_) => None
        case NotPut => Some(PutFailed(at))
        case Unresolved => Some(NoURL(at))
    }

    predicate Blocks() {
      Fault().Some?
    }

    // The thumbnail's bytes, when one is made, and when it is also stored.
    function MadeThumb(): Option<Bytes>
      requires Got().Some?
    {
      var t := src.thumbnail(Got().value.0, Got().value.1);
      if t.Some? && t.value != [] then t else None
    }

    function StoredThumb(): Option<Bytes>
      requires Got().Some?
    {
      if env.putWorks(ThumbKey()) then MadeThumb() else None
    }

    function ThumbBlob(body: Bytes): Blob {
      Blob(ThumbKey(), body, "output_thumb", "", jobID)
    }

    // The objects the slot tries to put; a thumbnail only after the image itself.
    function Tries(): seq<Blob> {
      if Got().None? then []
      else if Blocks() || MadeThumb().None? then [Main()]
      else [Main()] + [ThumbBlob(MadeThumb().value)]
    }

    // The thumbnail's key, when its put fails; the upload goes on without it.
    function Lost(): set<string> {
      if Got().Some? && !Blocks() && MadeThumb().Some? && StoredThumb().None? then {ThumbKey()} else {}
    }

    // The objects the slot adds.
    function Blobs(): seq<Blob> {
      if Got().None? then []
      else if Blocks() || StoredThumb().None? then [Main()]
      else [Main()] + [ThumbBlob(StoredThumb().value)]
    }

    // The slot afterwards.
    function Hosted(): Image
      requires !Blocks()
    {
      if Got().None? then image
      else
        var thumbURL := if StoredThumb().Some? && env.resolve(ThumbKey()).Some? then env.resolve(ThumbKey()).value
                        else image.thumbURL;
        image.(url := env.resolve(PrimaryKey()).value, b64JSON := "", mimeType := Got().value.1, thumbURL := thumbURL)
    }
  }

  // No object of this job has been stored yet.
  ghost predicate FreshJob<V>(objects: map<string, V>, userID: string, jobID: string) {
    forall name: ObjectName :: name.OfJob(jobID) ==> Key(userID, name) !in objects
  }

  // Stores the thumbnail of an image, if there is one and the put works.
  method HostThumb(st: Fake, s: Slot, main: Image)
    returns (hosted: Image, rows: seq<LedgerRow>, keys: seq<string>)
    requires s.Got().Some?
    modifies st
    ensures hosted == if s.StoredThumb().Some? && s.env.resolve(s.ThumbKey()).Some?
                      then main.(thumbURL := s.env.resolve(s.ThumbKey()).value) else main
    ensures s.StoredThumb().None? ==> rows == [] && st.objects == old(st.objects)
    ensures s.StoredThumb().Some? ==>
              && rows == [LedgerRow("", s.ThumbKey(), |s.StoredThumb().value|, "output_thumb", s.jobID)]
              && st.objects == old(st.objects)[s.ThumbKey() := s.StoredThumb().value]
    ensures keys == if s.MadeThumb().Some? then [s.ThumbKey()] else []
    ensures ChangedOnlyAt(old(st.objects), st.objects, keys)
  {
    hosted, rows, keys := main, [], [];
    var (b, mime) := s.Got().value;
    var thumb := s.src.thumbnail(b, mime);
    if thumb.Some? && |thumb.value| > 0 {
      var tKey := Key(s.userID, Thumb(s.jobID, s.at));
      keys := [tKey];
      var stored := st.Put(tKey, thumb.value, s.env.putWorks(tKey));
      if stored {
        var turl := s.env.resolve(tKey);
        if turl.Some? {
          hosted := hosted.(thumbURL := turl.value);
        }
        rows := [LedgerRow("", tKey, |thumb.value|, "output_thumb", s.jobID)];
      }
    }
  }

  // Stores one image; keys lists what may have been put.
  method HostSlot(st: Fake, s: Slot)
    returns (err: Option<UploadError>, hosted: Image, rows: seq<LedgerRow>, keys: seq<string>)
    modifies st
    ensures err == s.Fault()
    ensures err.None? ==> hosted == s.Hosted() && rows == RowsOf(s.Blobs())
    ensures err.None? ==> st.objects == Stored(old(st.objects), s.Blobs())
    ensures ChangedOnlyAt(old(st.objects), st.objects, keys)
    ensures keys == KeyList(s.Tries())
  {
    hide TrimSpace, IsRehostableRemoteImageURL, Key, ExtForMIME, Slot.Got, Slot.StoredThumb;
    hosted, rows, keys := s.image, [], [];
    var got := s.Got();
    if got.None? {
      if IsRehostableRemoteImageURL(hosted.url) && TrimSpace(hosted.b64JSON) == "" {
        assert s.Blobs() == [];
        return None, hosted, rows, keys;
      }
      return Some(BadImage(s.at)), hosted, rows, keys;
    }
    var (b, mime) := got.value;
    var pKey := Key(s.userID, Primary(s.jobID, s.at, ExtForMIME(mime)));
    keys := [pKey];
    var ok := st.Put(pKey, b, s.env.putWorks(pKey));
    if !ok {
      return Some(PutFailed(s.at)), hosted, rows, keys;
    }
    var pub := s.env.resolve(pKey);
    if pub.None? {
      return Some(NoURL(s.at)), hosted, rows, keys;
    }
    hosted := hosted.(url := pub.value, b64JSON := "", mimeType := mime);
    rows := [LedgerRow("", pKey, |b|, "output", s.jobID)];
    var thumbRows, thumbKeys;
    hosted, thumbRows, thumbKeys := HostThumb(st, s, hosted);
    rows, keys := rows + thumbRows, keys + thumbKeys;
    SlotStored(s, old(st.objects));
    err := None;
  }

  // What a stored slot adds to the store and to the ledger.
  lemma SlotStored(s: Slot, before: map<string, Bytes>)
    requires s.Got().Some? && !s.Blocks()
    ensures RowsOf(s.Blobs()) == [LedgerRow("", s.PrimaryKey(), |s.Got().value.0|, "output", s.jobID)] +
      if s.StoredThumb().None? then []
      else [LedgerRow("", s.ThumbKey(), |s.StoredThumb().value|, "output_thumb", s.jobID)]
    ensures Stored(before, s.Blobs()) ==
      if s.StoredThumb().None? then before[s.PrimaryKey() := s.Got().value.0]
      else before[s.PrimaryKey() := s.Got().value.0][s.ThumbKey() := s.StoredThumb().value]
  {
    var main := s.Main();
    StoredAppend(before, [], main);
    assert [] + [main] == [main];
    if s.StoredThumb().Some? {
      StoredAppend(before, [main], s.ThumbBlob(s.StoredThumb().value));
    }
  }

  // The upload of all images of a job.
  datatype Output = Output(env: Env, src: Source, userID: string, jobID: string, data: seq<Image>)
  {
    function At(i: nat): Slot
      requires i < |data|
    {
      Slot(env, src, userID, jobID, i, data[i])
    }

    // What the first n slots add.
    function Blobs(n: nat): seq<Blob>
      requires n <= |data|
    {
      if n == 0 then [] else Blobs(n - 1) + At(n - 1).Blobs()
    }

    // What they try to put, and which of it is lost.
    function Tries(n: nat): seq<Blob>
      requires n <= |data|
    {
      if n == 0 then [] else Tries(n - 1) + At(n - 1).Tries()
    }

    function Lost(n: nat): set<string>
      requires n <= |data|
    {
      if n == 0 then {} else Lost(n - 1) + At(n - 1).Lost()
    }

    function OkList(): (oks: seq<bool>)
      ensures |oks| == |data|
      ensures forall i :: 0 <= i < |oks| ==> oks[i] == !At(i).Blocks()
    {
      seq(|data|, i requires 0 <= i < |data| => !At(i).Blocks())
    }

    // The first slot that blocks, or the number of slots.
    function FirstBlocked(): (b: nat)
      ensures b <= |data|
    {
      FirstFalse(OkList())
    }

    // How the slots make the upload fail, if one does.
    function Failure(): (f: Option<UploadError>)
      ensures f.Some? ==> f.value.BadImage? || f.value.PutFailed? || f.value.NoURL?
    {
      if FirstBlocked() < |data| then At(FirstBlocked()).Fault() else None
    }

    // How many slots the upload comes to, and everything it tries to put.
    function SlotsTried(): (n: nat)
      ensures n <= |data|
    {
      if FirstBlocked() < |data| then FirstBlocked() + 1 else |data|
    }

    function Tried(): seq<Blob> {
      Tries(SlotsTried())
    }

    predicate Blocked() {
      exists i :: 0 <= i < |data| && At(i).Blocks()
    }
  }

  lemma FirstBlockedIs(o: Output)
    ensures o.FirstBlocked() < |o.data| ==> o.At(o.FirstBlocked()).Blocks()
    ensures forall i :: 0 <= i < o.FirstBlocked() ==> !o.At(i).Blocks()
  {
    hide Slot.Blocks;
    forall i | 0 <= i < o.FirstBlocked()
      ensures !o.At(i).Blocks()
    {
      assert o.OkList()[i];
    }
  }

  // The upload fails as its first blocking slot does, and only if there is one.
  lemma BlocksFirst(o: Output, i: nat)
    requires i <= |o.data| && (i < |o.data| ==> o.At(i).Blocks()) && forall k :: 0 <= k < i ==> !o.At(k).Blocks()
    ensures o.FirstBlocked() == i && (o.Blocked() <==> i < |o.data|)
    ensures o.Failure() == if i < |o.data| then o.At(i).Fault() else None
  {
    hide Slot.Blocks, Slot.Fault;
    FirstBlockedIs(o);
  }

  lemma {:induction false} BlobsStep(o: Output, i: nat, before: map<string, Bytes>)
    requires i < |o.data|
    ensures Stored(before, o.Blobs(i + 1)) == Stored(Stored(before, o.Blobs(i)), o.At(i).Blobs())
    ensures RowsOf(o.Blobs(i + 1)) == RowsOf(o.Blobs(i)) + RowsOf(o.At(i).Blobs())
    ensures KeyList(o.Tries(i + 1)) == KeyList(o.Tries(i)) + KeyList(o.At(i).Tries())
  {
    hide Slot.Blobs, Slot.Tries;
    KeysConcat(o.Tries(i), o.At(i).Tries());
    StoredConcat(before, o.Blobs(i), o.At(i).Blobs());
    RowsConcat(o.Blobs(i), o.At(i).Blobs());
  }

  // The first n slots have been served.
  ghost predicate Served(o: Output, next: seq<Image>, n: nat) {
    && |next| == |o.data| && n <= |o.data|
    && (forall k :: 0 <= k < n ==> !o.At(k).Blocks() && next[k] == o.At(k).Hosted())
    && forall k :: n <= k < |o.data| ==> next[k] == o.data[k]
  }

  lemma ServeOne(o: Output, next: seq<Image>, n: nat)
    requires Served(o, next, n) && n < |o.data| && !o.At(n).Blocks()
    ensures Served(o, next[n := o.At(n).Hosted()], n + 1)
  {
  }

  // The state of the loop after n slots: what is stored, what is recorded, what may be taken back.
  ghost predicate Progress(o: Output, n: nat, next: seq<Image>, rows: seq<LedgerRow>, keys: seq<string>,
                           before: map<string, Bytes>, objects: map<string, Bytes>)
  {
    && Served(o, next, n)
    && rows == RowsOf(o.Blobs(n)) && objects == Stored(before, o.Blobs(n))
    && ChangedOnlyAt(before, objects, keys) && keys == KeyList(o.Tries(n))
  }

  // The map that holds a job's result.
  class Response {
    var data: Option<seq<Image>>

    constructor (data: Option<seq<Image>>)
      ensures this.data == data
    {
      this.data := data;
    }
  }

  // What an upload may leave as the result: every slot served, or everything as it was.
  ghost predicate Leaves(o: Output, err: Option<UploadError>, after: seq<Image>) {
    && (err.None? ==> o.Failure().None? && Served(o, after, |o.data|))
    && (err.Some? ==> after == o.data && if o.Failure().Some? then err == o.Failure() else err.value.Ledger?)
  }

  /**
   On success every slot is hosted or left alone, the store has gained exactly the objects of
   the hosted slots, and their rows have been appended to the ledger. On an error the result and
   the database are as before, and the store is as before less the keys that were tried: it is
   as before exactly when nothing was stored under them.
   */
  method MaterializeJobOutputs(st: Fake?, db: QuotaDb?, out: Response?, userID: string, jobID: string, env: Env,
                               src: Source)
    returns (err: Option<UploadError>)
    requires db != null ==> UniqueIds(db.ledger)
    modifies st, db, out
    ensures db != null ==> UniqueIds(db.ledger)
    ensures st == null || userID == "" || out == null <==> err == Some(NoStore)
    ensures err == Some(NoStore) && db != null ==> db.View() == old(db.View())
    ensures err == Some(NoStore) && st != null ==> st.objects == old(st.objects)
    ensures (err == Some(NoStore) || old(out.data).None?) && out != null ==> out.data == old(out.data)
    ensures err != Some(NoStore) && old(out.data).None? ==> err.None? && st.objects == old(st.objects)
    ensures err != Some(NoStore) && old(out.data).None? && db != null ==> db.View() == old(db.View())
    ensures err != Some(NoStore) && old(out.data).Some? ==>
              var o := Output(env, src, userID, jobID, old(out.data).value);
              && out.data.Some? && Leaves(o, err, out.data.value)
              && (err.Some? ==> st.objects == old(st.objects) - KeysOf(o.Tried()))
              && (err.None? ==> st.objects == Stored(old(st.objects), o.Blobs(|o.data|)))
              && (db != null ==>
                    Ends(old(db.View()), db.View(), userID, RowsOf(o.Blobs(|o.data|)), env.now, o.Failure(), err))
  {
    hide UniqueIds, AppendOutcome, Slot.Blobs, Slot.Tries, Slot.Fault, Slot.Hosted, Leaves, Progress;
    if st == null || userID == "" || out == null {
      return Some(NoStore);
    }
    if out.data.None? {
      return None;
    }
    var raw := out.data.value;
    ghost var o := Output(env, src, userID, jobID, raw);
    if |raw| == 0 {
      NothingToDo(o, st.objects);
      if db != null {
        EmptyAppend(db.View(), userID, env.now);
      }
      return None;
    }
    var next, rows, keys;
    err, next, rows, keys := HostAll(st, raw, userID, jobID, env, src, o);
    if err.Some? {
      LeavesOnError(o, err);
      return;
    }
    Finished(o, next, rows, keys, old(st.objects), st.objects);
    var failed := Record(st, db, userID, rows, keys, env.now, env.tx);
    if failed.Some? {
      LeavesOnError(o, Some(Ledger(failed.value)));
      return Some(Ledger(failed.value));
    }
    out.data := Some(next);
    return None;
  }

  lemma NothingToDo(o: Output, before: map<string, Bytes>)
    requires o.data == []
    ensures Leaves(o, None, o.data) && Stored(before, o.Blobs(0)) == before && RowsOf(o.Blobs(0)) == []
  {
    BlocksFirst(o, 0);
  }

  lemma EmptyAppend(db: Db, userID: string, now: int)
    ensures AppendOutcome(db, db, userID, [], now, None)
  {
  }

  lemma LeavesOnError(o: Output, err: Option<UploadError>)
    requires err.Some? && if o.Failure().Some? then err == o.Failure() else err.value.Ledger?
    ensures Leaves(o, err, o.data)
  {
  }

  // The loop has served every slot: what that leaves, and what taking it back would leave.
  lemma Finished(o: Output, next: seq<Image>, rows: seq<LedgerRow>, keys: seq<string>, before: map<string, Bytes>,
                 objects: map<string, Bytes>)
    requires Progress(o, |o.data|, next, rows, keys, before, objects)
    ensures Leaves(o, None, next) && o.Failure().None?
    ensures rows == RowsOf(o.Blobs(|o.data|)) && objects == Stored(before, o.Blobs(|o.data|))
    ensures objects - Deleted(keys) == before - KeysOf(o.Tried())
  {
    hide Slot.Blocks, Slot.Hosted, Slot.Blobs, Slot.Tries, Slot.Fault;
    BlocksFirst(o, |o.data|);
    TriesAreTrimmed(o, |o.data|);
    DeletedKeys(o.Tries(|o.data|));
    Compensated(before, objects, keys);
  }

  // One more slot has been served.
  lemma OneMoreServed(o: Output, i: nat, next: seq<Image>, rows: seq<LedgerRow>, keys: seq<string>,
                      before: map<string, Bytes>, objects: map<string, Bytes>, after: map<string, Bytes>,
                      hosted: Image, more: seq<LedgerRow>, tried: seq<string>)
    requires i < |o.data| && Progress(o, i, next, rows, keys, before, objects) && !o.At(i).Blocks()
    requires hosted == o.At(i).Hosted() && more == RowsOf(o.At(i).Blobs()) && tried == KeyList(o.At(i).Tries())
    requires after == Stored(objects, o.At(i).Blobs()) && ChangedOnlyAt(objects, after, tried)
    ensures |next| == |o.data| && Progress(o, i + 1, next[i := hosted], rows + more, keys + tried, before, after)
  {
    hide Slot.Blobs, Slot.Tries, Slot.Hosted, Slot.Fault, Output.Tries, Output.Blobs, ChangedOnlyAt, Stored;
    ServeOne(o, next, i);
    ChangesCompose(before, objects, after, keys, KeyList(o.At(i).Tries()));
    BlobsStep(o, i, before);
  }

  // A slot blocks: what taking everything back leaves.
  lemma OneBlocks(o: Output, i: nat, next: seq<Image>, rows: seq<LedgerRow>, keys: seq<string>,
                  before: map<string, Bytes>, objects: map<string, Bytes>, after: map<string, Bytes>)
    requires i < |o.data| && Progress(o, i, next, rows, keys, before, objects) && o.At(i).Blocks()
    requires ChangedOnlyAt(objects, after, KeyList(o.At(i).Tries()))
    ensures o.At(i).Fault() == o.Failure()
    ensures after - Deleted(keys + KeyList(o.At(i).Tries())) == before - KeysOf(o.Tried())
  {
    hide Slot.Blobs, Slot.Tries, Slot.Hosted, Slot.Fault, Slot.Blocks, Output.Tries, Output.Blobs;
    hide ChangedOnlyAt, Stored;
    BlocksFirst(o, i);
    ChangesCompose(before, objects, after, keys, KeyList(o.At(i).Tries()));
    BlobsStep(o, i, before);
    TriesAreTrimmed(o, i + 1);
    DeletedKeys(o.Tries(i + 1));
    Compensated(before, after, keys + KeyList(o.At(i).Tries()));
  }

  // Stores one image after others; on an error everything that was tried is deleted.
  method HostStep(st: Fake, ghost o: Output, slot: Slot, i: nat, next: seq<Image>, rows: seq<LedgerRow>,
                  keys: seq<string>, ghost before: map<string, Bytes>)
    returns (err: Option<UploadError>, next': seq<Image>, rows': seq<LedgerRow>, keys': seq<string>)
    requires i < |o.data| && slot == o.At(i)
    requires Progress(o, i, next, rows, keys, before, st.objects)
    modifies st
    ensures err.Some? ==> err == o.Failure() && st.objects == before - KeysOf(o.Tried())
    ensures err.None? ==> Progress(o, i + 1, next', rows', keys', before, st.objects)
  {
    hide Slot.Blobs, Slot.Tries, Slot.Hosted, Slot.Fault, Progress, ChangedOnlyAt;
    NotYetServed(o, i, next, rows, keys, before, st.objects);
    var hosted, more, tried;
    err, hosted, more, tried := HostSlot(st, slot);
    next', rows', keys' := next, rows, keys + tried;
    if err.None? {
      OneMoreServed(o, i, next, rows, keys, before, old(st.objects), st.objects, hosted, more, tried);
      next', rows' := next[i := hosted], rows + more;
    } else {
      OneBlocks(o, i, next, rows, keys, before, old(st.objects), st.objects);
      st.DeleteAll(keys');
    }
  }

  lemma NoProgress(o: Output, before: map<string, Bytes>)
    ensures Progress(o, 0, o.data, [], [], before, before)
  {
  }

  lemma NotYetServed(o: Output, n: nat, next: seq<Image>, rows: seq<LedgerRow>, keys: seq<string>,
                     before: map<string, Bytes>, objects: map<string, Bytes>)
    requires Progress(o, n, next, rows, keys, before, objects)
    ensures |next| == |o.data| && (n < |o.data| ==> next[n] == o.data[n])
    ensures n == |o.data| ==> o.Failure().None?
  {
    hide Slot.Hosted, Slot.Blobs, Slot.Tries, Slot.Fault;
    if n == |o.data| {
      BlocksFirst(o, n);
    }
  }

  // The loop over the slots.
  method HostAll(st: Fake, raw: seq<Image>, userID: string, jobID: string, env: Env, src: Source, ghost o: Output)
    returns (err: Option<UploadError>, next: seq<Image>, rows: seq<LedgerRow>, keys: seq<string>)
    requires o == Output(env, src, userID, jobID, raw)
    modifies st
    ensures err == o.Failure()
    ensures err.Some? ==> st.objects == old(st.objects) - KeysOf(o.Tried())
    ensures err.None? ==> Progress(o, |raw|, next, rows, keys, old(st.objects), st.objects)
  {
    hide Progress;
    NoProgress(o, st.objects);
    next, rows, keys, err := raw, [], [], None;
    for i := 0 to |raw|
      invariant Progress(o, i, next, rows, keys, old(st.objects), st.objects)
    {
      NotYetServed(o, i, next, rows, keys, old(st.objects), st.objects);
      err, next, rows, keys := HostStep(st, o, Slot(env, src, userID, jobID, i, next[i]), i, next, rows, keys,
                                        old(st.objects));
      if err.Some? {
        return;
      }
    }
    NotYetServed(o, |raw|, next, rows, keys, old(st.objects), st.objects);
    err := None;
  }

  // A slot's objects are named after the job and the slot.
  ghost predicate NamedIn(key: string, userID: string, jobID: string, lo: nat, hi: nat) {
    exists name: ObjectName ::
      name.OfJob(jobID) && IsExt(name.Ext()) && lo <= name.i < hi && Key(userID, name) == key
  }

  lemma SlotKeys(s: Slot)
    requires s.Got().Some?
    ensures s.PrimaryKey() != s.ThumbKey()
    ensures NamedIn(s.PrimaryKey(), s.userID, s.jobID, s.at, s.at + 1)
    ensures NamedIn(s.ThumbKey(), s.userID, s.jobID, s.at, s.at + 1)
  {
    hide Key, Slot.Got, ExtForMIME;
    var main, thumb := Primary(s.jobID, s.at, ExtForMIME(s.Got().value.1)), Thumb(s.jobID, s.at);
    assert main.OfJob(s.jobID) && thumb.OfJob(s.jobID) && main.i == thumb.i == s.at;
    KeysOfOneJob(s.userID, s.jobID, main, thumb);
  }

  lemma SlotNames(s: Slot)
    ensures DistinctBlobs(s.Tries())
    ensures forall b :: b in s.Tries() ==> NamedIn(b.key, s.userID, s.jobID, s.at, s.at + 1)
    ensures forall k :: k in s.Lost() ==> NamedIn(k, s.userID, s.jobID, s.at, s.at + 1)
  {
    hide NamedIn, Slot.Got, Slot.PrimaryKey, Slot.ThumbKey, Slot.Fault, Slot.MadeThumb, Slot.StoredThumb;
    if s.Got().Some? {
      SlotKeys(s);
    }
  }

  // What a slot adds is what it tries, less a lost thumbnail.
  lemma SlotKept(s: Slot)
    ensures Kept(s.Tries(), s.Lost()) == s.Blobs()
  {
    hide Slot.Got, Slot.PrimaryKey, Slot.ThumbKey, Slot.Fault, Slot.MadeThumb, NamedIn, Kept;
    KeptNone(s.Lost());
    if s.Got().Some? {
      SlotKeys(s);
      KeptOne(s.Main(), s.Lost());
      if !s.Blocks() && s.MadeThumb().Some? {
        var thumb := s.ThumbBlob(s.MadeThumb().value);
        KeptConcat([s.Main()], [thumb], s.Lost());
        KeptOne(thumb, s.Lost());
      }
    }
  }

  lemma KeptNone(lost: set<string>)
    ensures Kept([], lost) == []
  {
  }

  lemma KeptOne(b: Blob, lost: set<string>)
    ensures Kept([b], lost) == if b.key in lost then [] else [b]
  {
    assert [b][..0] == [];
  }

  lemma NamesDiffer(a: string, b: string, userID: string, jobID: string, n: nat)
    requires NamedIn(a, userID, jobID, 0, n) && NamedIn(b, userID, jobID, n, n + 1)
    ensures a != b
  {
    var x: ObjectName :| x.OfJob(jobID) && IsExt(x.Ext()) && x.i < n && Key(userID, x) == a;
    var y: ObjectName :| y.OfJob(jobID) && IsExt(y.Ext()) && n <= y.i && Key(userID, y) == b;
    KeysOfOneJob(userID, jobID, x, y);
  }

  lemma NotNamed(a: string, userID: string, jobID: string, n: nat)
    requires NamedIn(a, userID, jobID, 0, n)
    ensures !NamedIn(a, userID, jobID, n, n + 1)
  {
    hide NamedIn;
    if NamedIn(a, userID, jobID, n, n + 1) {
      NamesDiffer(a, a, userID, jobID, n);
    }
  }

  lemma NamedWider(key: string, userID: string, jobID: string, lo: nat, hi: nat)
    requires NamedIn(key, userID, jobID, lo, hi)
    ensures NamedIn(key, userID, jobID, 0, hi + 1) && NamedIn(key, userID, jobID, 0, hi)
  {
    var x: ObjectName :| x.OfJob(jobID) && IsExt(x.Ext()) && lo <= x.i < hi && Key(userID, x) == key;
    assert x.OfJob(jobID) && 0 <= x.i < hi + 1;
  }

  lemma NamedIsTrimmed(key: string, userID: string, jobID: string, lo: nat, hi: nat)
    requires NamedIn(key, userID, jobID, lo, hi)
    ensures TrimSpace(key) == key
  {
    hide TrimSpace;
    var x: ObjectName :| x.OfJob(jobID) && IsExt(x.Ext()) && Key(userID, x) == key;
    KeyIsTrimmed(userID, x);
  }

  // What the first n slots try to put, or lose, is named after them.
  ghost predicate AllNamed(o: Output, n: nat)
    requires n <= |o.data|
  {
    && (forall b :: b in o.Tries(n) ==> NamedIn(b.key, o.userID, o.jobID, 0, n))
    && (forall k :: k in o.Lost(n) ==> NamedIn(k, o.userID, o.jobID, 0, n))
  }

  lemma {:induction false} TriesAreNamed(o: Output, n: nat)
    requires n <= |o.data|
    ensures AllNamed(o, n)
  {
    hide *;
    if n == 0 {
      NoSlots(o);
    } else {
      TriesAreNamed(o, n - 1);
      AllAreNamed(o, n);
    }
  }

  // No two objects an upload tries to put share a key.
  lemma {:induction false} TriesAreDistinct(o: Output, n: nat)
    requires n <= |o.data|
    ensures DistinctBlobs(o.Tries(n))
  {
    hide *;
    if n == 0 {
      NoSlots(o);
    } else {
      TriesAreDistinct(o, n - 1);
      TriesAreNamed(o, n - 1);
      TriesJoin(o, n);
    }
  }

  lemma AllAreNamed(o: Output, n: nat)
    requires 0 < n <= |o.data| && AllNamed(o, n - 1)
    ensures AllNamed(o, n)
  {
    hide Slot.Tries, Slot.Lost, Output.Tries, Output.Lost, NamedIn;
    LastSlot(o, n);
    var slot := o.At(n - 1);
    SlotNames(slot);
    forall b | b in o.Tries(n)
      ensures NamedIn(b.key, o.userID, o.jobID, 0, n)
    {
      NamedOf(b.key, o, n, b in slot.Tries());
    }
    forall k | k in o.Lost(n)
      ensures NamedIn(k, o.userID, o.jobID, 0, n)
    {
      NamedOf(k, o, n, k in slot.Lost());
    }
  }

  // A name of the last slot, or of one before it, is a name of all.
  lemma NamedOf(key: string, o: Output, n: nat, last: bool)
    requires 0 < n
    requires if last then NamedIn(key, o.userID, o.jobID, n - 1, n) else NamedIn(key, o.userID, o.jobID, 0, n - 1)
    ensures NamedIn(key, o.userID, o.jobID, 0, n)
  {
    hide NamedIn;
    if last {
      NamedWider(key, o.userID, o.jobID, n - 1, n);
    } else {
      NamedWider(key, o.userID, o.jobID, 0, n - 1);
    }
  }

  lemma NoSlots(o: Output)
    ensures o.Blobs(0) == [] && o.Tries(0) == [] && o.Lost(0) == {} && DistinctBlobs(o.Tries(0)) && AllNamed(o, 0)
  {
  }

  // The last of n slots.
  lemma LastSlot(o: Output, n: nat)
    requires 0 < n <= |o.data|
    ensures o.Blobs(n) == o.Blobs(n - 1) + o.At(n - 1).Blobs()
    ensures o.Tries(n) == o.Tries(n - 1) + o.At(n - 1).Tries()
    ensures o.Lost(n) == o.Lost(n - 1) + o.At(n - 1).Lost()
  {
    hide Slot.Tries, Slot.Lost, Slot.Blobs;
  }

  lemma TriesJoin(o: Output, n: nat)
    requires 0 < n <= |o.data| && DistinctBlobs(o.Tries(n - 1)) && AllNamed(o, n - 1)
    ensures DistinctBlobs(o.Tries(n))
  {
    LastSlot(o, n);
    hide Slot.Tries, Output.Tries, NamedIn, DistinctBlobs;
    var before, more := o.Tries(n - 1), o.At(n - 1).Tries();
    SlotNames(o.At(n - 1));
    forall x, y | x in before && y in more
      ensures x.key != y.key
    {
      NamesDiffer(x.key, y.key, o.userID, o.jobID, n - 1);
    }
    DistinctConcat(before, more);
  }

  lemma TriesAreTrimmed(o: Output, n: nat)
    requires n <= |o.data|
    ensures AllTrimmed(KeyList(o.Tries(n)))
  {
    hide TrimSpace, NamedIn, DistinctBlobs, Output.Tries, Output.Lost;
    TriesAreNamed(o, n);
    forall i | 0 <= i < |o.Tries(n)|
      ensures TrimSpace(KeyList(o.Tries(n))[i]) == KeyList(o.Tries(n))[i]
    {
      NamedIsTrimmed(o.Tries(n)[i].key, o.userID, o.jobID, 0, n);
    }
  }

  // What an upload adds is what it tries, less what is lost.
  lemma {:induction false} BlobsAreKept(o: Output, n: nat)
    requires n <= |o.data|
    ensures o.Blobs(n) == Kept(o.Tries(n), o.Lost(n))
  {
    hide Slot.Blobs, Slot.Tries, Slot.Lost, Output.Blobs, Output.Tries, Output.Lost, Kept;
    if n == 0 {
      NoSlots(o);
      KeptNone({});
    } else {
      LastSlot(o, n);
      var before, more, lost, here := o.Tries(n - 1), o.At(n - 1).Tries(), o.Lost(n - 1), o.At(n - 1).Lost();
      BlobsAreKept(o, n - 1);
      SlotKept(o.At(n - 1));
      LostApart(o, n);
      KeptJoin(before, more, lost, here);
    }
  }

  // What one slot loses is not another's.
  lemma LostApart(o: Output, n: nat)
    requires 0 < n <= |o.data|
    ensures forall b :: b in o.Tries(n - 1) ==> b.key !in o.At(n - 1).Lost()
    ensures forall b :: b in o.At(n - 1).Tries() ==> b.key !in o.Lost(n - 1)
  {
    hide Slot.Tries, Slot.Lost, NamedIn, DistinctBlobs, Output.Tries, Output.Lost;
    TriesAreNamed(o, n - 1);
    SlotNames(o.At(n - 1));
    forall b | b in o.Tries(n - 1)
      ensures b.key !in o.At(n - 1).Lost()
    {
      NotNamed(b.key, o.userID, o.jobID, n - 1);
    }
    forall b | b in o.At(n - 1).Tries()
      ensures b.key !in o.Lost(n - 1)
    {
      if NamedIn(b.key, o.userID, o.jobID, 0, n - 1) {
        NotNamed(b.key, o.userID, o.jobID, n - 1);
      }
    }
  }

  // A put that makes the upload fail is its last, and not that of a thumbnail.
  lemma FailsAtLast(o: Output)
    requires o.Failure().Some? && !o.Failure().value.BadImage?
    ensures o.Tried() != [] && o.Tried()[|o.Tried()| - 1].key !in o.Lost(o.SlotsTried())
  {
    hide Slot.Tries, Slot.Lost, Slot.Fault, Output.Tries, Output.Lost, Output.FirstBlocked;
    var n := o.SlotsTried();
    assert o.Failure() == o.At(n - 1).Fault();
    BlockingSlot(o.At(n - 1));
    LastSlot(o, n);
    LostApart(o, n);
    assert o.At(n - 1).Main() in o.At(n - 1).Tries();
  }

  lemma BlockingSlot(s: Slot)
    requires s.Fault().Some? && !s.Fault().value.BadImage?
    ensures s.Got().Some? && s.Tries() == [s.Main()] && s.Lost() == {}
  {
    hide Slot.Got, Slot.PrimaryKey;
  }

  // No two objects of one upload share a key.
  lemma {:induction false} OutputBlobsAreDistinct(o: Output, n: nat)
    requires n <= |o.data|
    ensures DistinctBlobs(o.Blobs(n))
    ensures forall b :: b in o.Blobs(n) ==> NamedIn(b.key, o.userID, o.jobID, 0, n)
  {
    hide NamedIn, DistinctBlobs, Output.Tries, Output.Lost, Output.Blobs, Kept;
    BlobsAreKept(o, n);
    TriesAreDistinct(o, n);
    TriesAreNamed(o, n);
    KeptMembers(o.Tries(n), o.Lost(n));
    KeptAreDistinct(o.Tries(n), o.Lost(n));
  }

  /**
   Taking back is exact when nothing was stored before under the keys that were tried, and only
   then; for a job whose objects are all new it is.
   */
  lemma {:induction false} RestoredExactly(o: Output, before: map<string, Bytes>)
    ensures before - KeysOf(o.Tried()) == before <==> KeysOf(o.Tried()) !! before.Keys
    ensures FreshJob(before, o.userID, o.jobID) ==> KeysOf(o.Tried()) !! before.Keys
  {
    hide Output.Tries, Output.Lost, NamedIn, FreshJob, KeysOf, DistinctBlobs, Slot.Fault;
    var keys := KeysOf(o.Tried());
    if before - keys == before {
      forall k | k in keys
        ensures k !in before
      {
        assert k !in before - keys;
      }
    }
    if FreshJob(before, o.userID, o.jobID) {
      var n := o.SlotsTried();
      TriesAreNamed(o, n);
      forall k | k in keys
        ensures k !in before
      {
        KeyIn(o.Tried(), k);
        var i :| 0 <= i < |o.Tried()| && o.Tried()[i].key == k;
        assert o.Tried()[i] in o.Tried();
        NamedIsNew(k, o.userID, o.jobID, n, before);
      }
    }
  }

  /** Uploading a job's images a second time, and failing, loses an object of the first time. */
  lemma {:induction false} SecondUploadLoses(env: Env, src: Source, userID: string, jobID: string, image: Image)
    returns (o: Output, before: map<string, Bytes>)
    requires Slot(env, src, userID, jobID, 0, image).Got().Some?
    ensures o == Output(env.(putWorks := (key: string) => false), src, userID, jobID, [image])
    ensures o.Failure() == Some(PutFailed(0))
    ensures o.At(0).PrimaryKey() in before && o.At(0).PrimaryKey() !in before - KeysOf(o.Tried())
  {
    hide Slot.Got, Key;
    o := Output(env.(putWorks := (key: string) => false), src, userID, jobID, [image]);
    SameBytes(o.At(0), env);
    before := map[o.At(0).PrimaryKey() := []];
    BlocksFirst(o, 0);
    LastSlot(o, 1);
    NoSlots(o);
    var main := o.At(0).Main();
    assert o.Tried() == [main] && [main][..0] == [];
    assert KeysOf([main]) == KeysOf([]) + {main.key};
  }

  // Whether puts work says nothing about an image's bytes.
  lemma SameBytes(s: Slot, env: Env)
    requires s.env == env.(putWorks := s.env.putWorks)
    ensures s.Got() == s.(env := env).Got()
  {
    hide TrimSpace;
  }

  /**
   What a successful upload means for its reader: every object is recorded once with its exact
   size and nothing else has changed; every slot was left alone because its image could not
   be fetched, or shows the public URL of an object that holds exactly its own bytes, and a
   new thumbnail URL is that of an object holding the image's thumbnail under the key derived
   from the image's own.
   */
  lemma {:induction false} OutputsAreServed(o: Output, before: map<string, Bytes>, i: nat)
    requires !o.Blocked() && i < |o.data| && FreshJob(before, o.userID, o.jobID)
    ensures RecordsExactly(before, Stored(before, o.Blobs(|o.data|)), RowsOf(o.Blobs(|o.data|)))
    ensures SlotServed(o.At(i), Stored(before, o.Blobs(|o.data|)))
  {
    hide Slot.Blobs, Slot.Hosted, Slot.StoredThumb, SlotServed, RecordsExactly, FreshJob, NamedIn, DistinctBlobs;
    var blobs := o.Blobs(|o.data|);
    OutputBlobsAreDistinct(o, |o.data|);
    forall b | b in blobs
      ensures b.key !in before
    {
      NamedIsNew(b.key, o.userID, o.jobID, |o.data|, before);
    }
    BlobsAreRecorded(before, blobs);
    forall b | b in o.At(i).Blobs()
      ensures b.key in Stored(before, blobs) && Stored(before, blobs)[b.key] == b.body
    {
      SlotBlobIn(o, i, |o.data|, b);
      var at :| 0 <= at < |blobs| && blobs[at] == b;
      BodiesAreStored(before, blobs, at);
    }
    BlobsServe(o.At(i), Stored(before, blobs));
  }

  lemma NamedIsNew<V>(key: string, userID: string, jobID: string, n: nat, before: map<string, V>)
    requires NamedIn(key, userID, jobID, 0, n) && FreshJob(before, userID, jobID)
    ensures key !in before
  {
    var x: ObjectName :| x.OfJob(jobID) && Key(userID, x) == key;
  }

  ghost predicate SlotServed(s: Slot, objects: map<string, Bytes>)
    requires !s.Blocks()
  {
    var d, h := s.image, s.Hosted();
    if s.Got().None? then h == d && IsRehostableRemoteImageURL(d.url)
    else
      exists key ::
        && key in objects && objects[key] == s.Got().value.0 && s.env.resolve(key) == Some(h.url)
        && h.mimeType == s.Got().value.1 && h.b64JSON == "" && h.revisedPrompt == d.revisedPrompt
        && (h.thumbURL != d.thumbURL ==>
              var thumb := ThumbKeyForOutput(key);
              && thumb in objects && s.env.resolve(thumb) == Some(h.thumbURL)
              && s.src.thumbnail(s.Got().value.0, s.Got().value.1) == Some(objects[thumb]))
  }

  lemma BlobsServe(s: Slot, objects: map<string, Bytes>)
    requires !s.Blocks()
    requires forall b :: b in s.Blobs() ==> b.key in objects && objects[b.key] == b.body
    ensures SlotServed(s, objects)
  {
    if s.Got().Some? {
      var key := s.PrimaryKey();
      var main := Blob(key, s.Got().value.0, "output", "", s.jobID);
      assert s.Blobs()[0] == main && main in s.Blobs();
      ThumbKeyOfPrimary(s.userID, s.jobID, s.at, ExtForMIME(s.Got().value.1));
      if s.StoredThumb().Some? {
        assert s.Blobs()[1] in s.Blobs();
      }
      assert key in objects && objects[key] == s.Got().value.0 && s.env.resolve(key) == Some(s.Hosted().url);
    }
  }

  lemma {:induction false} SlotBlobIn(o: Output, i: nat, n: nat, b: Blob)
    requires i < n <= |o.data| && b in o.At(i).Blobs()
    ensures b in o.Blobs(n)
  {
    hide Slot.Blobs;
    if i < n - 1 {
      SlotBlobIn(o, i, n - 1, b);
    }
  }
}
