/**
 What a job's goroutine does between its two updates of the job store (executeImageGeneration
 and the middle of runJob in internal/api/generate.go): the provider's answer becomes a result
 or an error, and the result's images are kept on disk, in the object store, or in both.
 */
module Generation {
  import opened GoStrings
  import opened Artifacts
  import opened Jobs
  import opened ObjStore
  import opened OutputUpload
  import opened Providers
  import opened Quota

  // An error of the API, one that holds another in its chain, or any other one.
  datatype GenError = APIErr(errType: string, code: string, message: string)
                    | Wrapped(message: string, inner: GenError)
                    | Plain(message: string)

  // The code of the first API error in the chain.
  function ErrorCode(e: GenError): (code: string)
    ensures code != ""
  {
    match e
    case Plain(_) => "generation_error"
    case Wrapped(_, inner) => ErrorCode(inner)
    case APIErr(errType, code, _) =>
      if code != "" then errType + "/" + code
      else if errType != "" then errType
      else "generation_error"
  }

  // What the error prints.
  function ErrorText(e: GenError): string {
    match e
    case APIErr(errType, code, message) =>
      if code != "" then errType + "/" + code + ": " + message else errType + ": " + message
    case Wrapped(message, _) => message
    case Plain(message) => message
  }

  // The result of a generation with its reported extras, or an error.
  datatype Outcome = Generated(data: seq<Image>, tokens: int, requestID: string, provider: string, model: string,
                               wireModel: string)
                   | Errored(error: GenError)

  // What comes of asking for images; deadline: the time allowed has run out. A request that is
  // turned down before a provider is asked is refused too.
  datatype Answer = Refused(error: GenError, deadline: bool) | Answered(reply: Reply)

  const UPSTREAM_TIMEOUT := APIErr("upstream_error", "upstream_timeout", "upstream did not respond in time")
  const EMPTY_RESPONSE := APIErr("upstream_error", "empty_response", "upstream returned no images")

  // One slot for each image; a provider reports no thumbnails.
  function SlotsOf(images: seq<Image>): (data: seq<Image>)
    ensures |data| == |images|
    ensures forall i :: 0 <= i < |data| ==> data[i] == images[i].(thumbURL := "")
  {
    seq(|images|, i requires 0 <= i < |images| => images[i].(thumbURL := ""))
  }

  function Executed(a: Answer, upstreamWire: string): Outcome {
    match a
    case Refused(error, deadline) => Errored(if deadline then UPSTREAM_TIMEOUT else error)
    case Answered(reply) =>
      if reply.images == [] then Errored(EMPTY_RESPONSE)
      else
        var wire := TrimSpace(reply.effectiveUpstream);
        Generated(SlotsOf(reply.images), reply.tokensUsed, TrimSpace(reply.requestID),
                  TrimSpace(reply.effectiveProvider), TrimSpace(reply.effectiveModel),
                  if wire != "" then wire else upstreamWire)
  }

  // The loop over the reply's images.
  method ExecuteImageGeneration(a: Answer, upstreamWire: string) returns (o: Outcome)
    ensures o == Executed(a, upstreamWire)
  {
    if a.Refused? {
      return Errored(if a.deadline then UPSTREAM_TIMEOUT else a.error);
    }
    var images := a.reply.images;
    if |images| == 0 {
      return Errored(EMPTY_RESPONSE);
    }
    var data := [];
    for i := 0 to |images|
      invariant |data| == i && forall k :: 0 <= k < i ==> data[k] == images[k].(thumbURL := "")
    {
      data := data + [images[i].(thumbURL := "")];
    }
    assert data == SlotsOf(images);
    var wire := TrimSpace(a.reply.effectiveUpstream);
    return Generated(data, a.reply.tokensUsed, TrimSpace(a.reply.requestID), TrimSpace(a.reply.effectiveProvider),
                     TrimSpace(a.reply.effectiveModel),
                     if wire != "" then wire else upstreamWire);
  }

  // Where the images of a job go, and how errors of the disk, of URLs and of the ledger read.
  datatype Hosting = Hosting(configured: string, hasStore: bool, disk: Disk, env: Env, src: Source,
                             diskSays: DiskError -> string, uploadSays: UploadError -> string)
  {
    function Mode(): string {
      var m := ToLower(TrimSpace(configured));
      if m == "" then "oss" else m
    }

    predicate Uploads(userID: string) {
      userID != "" && hasStore && Mode() != "local"
    }

    function DiskFault(e: DiskError): GenError {
      APIErr("internal_server_error", "artifact_write", diskSays(e))
    }

    function UploadFault(e: UploadError): GenError {
      match e
      case BadImage(i) => APIErr("internal_server_error", "oss_image_bytes", "image " + Itoa(i))
      case PutFailed(i) => APIErr("internal_server_error", "oss_put_output", "image " + Itoa(i))
      case Ledger(QuotaExceeded) =>
        APIErr("invalid_request_error", "storage_quota_exceeded", "generated images exceed your storage quota")
      case _ => Plain(uploadSays(e))
    }

    // The result once its images are on disk.
    function OnDisk(id: string, o: Outcome): Outcome
      requires o.Generated?
    {
      var e := JobError(disk, id, o.data);
      if e.Some? then Errored(DiskFault(e.value)) else o.(data := Written(disk, id, o.data))
    }

    // The files after that.
    function FilesOf(id: string, userID: string, o: Outcome, files: map<string, Bytes>): map<string, Bytes> {
      if o.Errored? || (Uploads(userID) && Mode() != "both") then files else FilesLeft(disk, id, o.data, files)
    }

    // The result that is to be uploaded.
    function ToUpload(id: string, o: Outcome): Outcome
      requires o.Generated?
    {
      if Mode() == "both" then OnDisk(id, o) else o
    }

    function UploadOf(id: string, userID: string, o: Outcome): Output
      requires o.Generated?
    {
      Output(env, src, userID, id, o.data)
    }

    // A result may become this one by an upload that ends with err.
    ghost predicate UploadLeaves(id: string, userID: string, o: Outcome, err: Option<UploadError>, o': Outcome)
      requires o.Generated?
    {
      if err.Some? then Leaves(UploadOf(id, userID, o), err, o.data) && o' == Errored(UploadFault(err.value))
      else o'.Generated? && o' == o.(data := o'.data) && Leaves(UploadOf(id, userID, o), None, o'.data)
    }

    // What a result may become when its images are moved to where they are kept.
    ghost predicate Rehosts(id: string, userID: string, o: Outcome, o': Outcome) {
      if o.Errored? then o' == o
      else if !Uploads(userID) then o' == OnDisk(id, o)
      else if ToUpload(id, o).Errored? then o' == ToUpload(id, o)
      else exists err :: UploadLeaves(id, userID, ToUpload(id, o), err, o')
    }
  }

  /** Wherever the images go, a result keeps all its slots and all it reports, and an error stays that error. */
  lemma {:induction false} RehostingKeepsSlots(h: Hosting, id: string, userID: string, o: Outcome, o': Outcome)
    requires h.Rehosts(id, userID, o, o')
    ensures o.Errored? ==> o' == o
    ensures o'.Generated? ==> o.Generated? && |o'.data| == |o.data| && o' == o.(data := o'.data)
    ensures o'.Generated? && h.Uploads(userID) ==>
              var u := h.UploadOf(id, userID, h.ToUpload(id, o));
              u.Failure().None? && Served(u, o'.data, |o.data|)
  {
    hide Output.Failure, JobError, Written;
    if o.Generated? && h.Uploads(userID) && h.ToUpload(id, o).Generated? {
      var err :| h.UploadLeaves(id, userID, h.ToUpload(id, o), err, o');
    }
  }

  // What an upload makes of the store, and of the database if there is one.
  ghost predicate UploadStored(u: Output, objects: map<string, Bytes>, objects': map<string, Bytes>, db: Option<Db>,
                               db': Option<Db>, err: Option<UploadError>)
  {
    && objects' == (if err.Some? then objects - KeysOf(u.Tried()) else Stored(objects, u.Blobs(|u.data|)))
    && (db.Some? <==> db'.Some?)
    && (db.Some? ==> Ends(db.value, db'.value, u.userID, RowsOf(u.Blobs(|u.data|)), u.env.now, u.Failure(), err))
  }

  // What rehosting makes of them.
  ghost predicate RehostStored(h: Hosting, id: string, userID: string, o: Outcome, o': Outcome,
                               objects: map<string, Bytes>, objects': map<string, Bytes>, db: Option<Db>,
                               db': Option<Db>)
  {
    if o.Errored? || !h.Uploads(userID) || h.ToUpload(id, o).Errored? then objects' == objects && db' == db
    else exists err ::
      && h.UploadLeaves(id, userID, h.ToUpload(id, o), err, o')
      && UploadStored(h.UploadOf(id, userID, h.ToUpload(id, o)), objects, objects', db, db', err)
  }

  /**
   A job's record and the object store agree: a result that could not be kept has left the store
   and the ledger as they were, and every slot of one that was uploaded was left alone because its
   image cannot be fetched, or is served by an object that holds exactly its own bytes.
   */
  lemma {:induction false} ResultAndStoreAgree(h: Hosting, id: string, userID: string, o: Outcome, o': Outcome,
                                               objects: map<string, Bytes>, objects': map<string, Bytes>,
                                               db: Option<Db>, db': Option<Db>)
    requires RehostStored(h, id, userID, o, o', objects, objects', db, db') && FreshJob(objects, userID, id)
    requires h.Rehosts(id, userID, o, o')
    ensures o'.Errored? ==> objects' == objects && db' == db
    ensures o'.Generated? && h.Uploads(userID) ==>
              var u := h.UploadOf(id, userID, h.ToUpload(id, o));
              |u.data| == |o'.data| && forall i :: 0 <= i < |o'.data| ==>
                !u.At(i).Blocks() && o'.data[i] == u.At(i).Hosted() && SlotServed(u.At(i), objects')
  {
    hide JobError, Written, FreshJob, Ends, Hosting.Mode, Hosting.OnDisk, Output.Blobs, Output.Tried;
    hide SlotServed, Stored;
    hide Slot.Blocks, Slot.Hosted, Slot.Fault, Hosting.ToUpload, KeysOf;
    if o.Generated? && h.Uploads(userID) && h.ToUpload(id, o).Generated? {
      var u := h.UploadOf(id, userID, h.ToUpload(id, o));
      var err :| h.UploadLeaves(id, userID, h.ToUpload(id, o), err, o')
        && UploadStored(u, objects, objects', db, db', err);
      if err.Some? {
        RestoredExactly(u, objects);
        FailedKeepsDb(u, db, db', err);
      } else {
        UploadedIsServed(u, o'.data, objects);
      }
    }
  }

  lemma FailedKeepsDb(u: Output, db: Option<Db>, db': Option<Db>, err: Option<UploadError>)
    requires err.Some? && (db.Some? <==> db'.Some?)
    requires db.Some? ==> Ends(db.value, db'.value, u.userID, RowsOf(u.Blobs(|u.data|)), u.env.now, u.Failure(), err)
    ensures db' == db
  {
  }

  lemma {:induction false} UploadedIsServed(u: Output, data: seq<Image>, before: map<string, Bytes>)
    requires u.Failure().None? && Served(u, data, |u.data|) && FreshJob(before, u.userID, u.jobID)
    ensures |u.data| == |data|
    ensures forall i :: 0 <= i < |data| ==>
              !u.At(i).Blocks() && data[i] == u.At(i).Hosted() && SlotServed(u.At(i), Stored(before, u.Blobs(|u.data|)))
  {
    hide FreshJob, Output.Blobs, SlotServed, Stored, Slot.Blocks, Slot.Hosted, Slot.Fault, RecordsExactly;
    forall i | 0 <= i < |data|
      ensures SlotServed(u.At(i), Stored(before, u.Blobs(|u.data|)))
    {
      OutputsAreServed(u, before, i);
    }
  }
}
