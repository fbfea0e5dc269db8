/**
 Storing a template's reference images (uploadTemplateReferenceMapsToOSS in
 internal/api/oss_materialize.go): a first pass decodes the references that carry base64
 text, a second pass walks the same list again and consumes the decoded bodies in step.
 */
module TemplateUpload {
  import opened GoStrings
  import opened ObjectKeys
  import opened ObjStore
  import opened Quota

  // A JSON object whose members are strings or something else.
  datatype Value = Str(text: string) | Other(tag: int)

  type Fields = map<string, Value>

  function Text(m: Fields, name: string): string {
    if name in m && m[name].Str? then m[name].text else ""
  }

  function WithoutSpaces(s: string): string {
    if s == "" then "" else (if s[0] == ' ' then "" else [s[0]]) + WithoutSpaces(s[1..])
  }

  function Encoded(m: Fields): string {
    TrimSpace(WithoutSpaces(Text(m, "b64_json")))
  }

  datatype Upload = Upload(env: Env, userID: string, run: string, refs: seq<Fields>)
  {
    predicate Empty(i: nat)
      requires i < |refs|
    {
      Encoded(refs[i]) == ""
    }

    // How many of the first n references carry an image.
    function Count(n: nat): nat
      requires n <= |refs|
    {
      if n == 0 then 0 else Count(n - 1) + if Empty(n - 1) then 0 else 1
    }

    function Body(i: nat): Option<Bytes>
      requires i < |refs|
    {
      env.decode(Encoded(refs[i]))
    }

    function Mime(i: nat): string
      requires i < |refs|
    {
      OrPNG(TrimSpace(Text(refs[i], "mime_type")))
    }

    predicate Decodes() {
      forall i {:trigger Body(i)} :: 0 <= i < |refs| && !Empty(i) ==> Body(i).Some?
    }

    // The object of reference i: it is numbered by its place among those with an image.
    function Name(i: nat): ObjectName
      requires i < |refs|
    {
      Template(run, Count(i), ExtForMIME(Mime(i)))
    }

    predicate Works(i: nat)
      requires i < |refs|
    {
      Empty(i) || PutEndOf(env, Key(userID, Name(i))).Resolved?
    }

    // How a reference with an image fails.
    function FailureAt(i: nat): (e: UploadError)
      requires i < |refs|
      ensures e.NoRandom? || e.PutFailed? || e.NoURL?
    {
      if PutEndOf(env, Key(userID, Name(i))).NotPut? then PutFailed(i) else NoURL(i)
    }

    function WorksList(): (works: seq<bool>)
      ensures |works| == |refs|
      ensures forall i :: 0 <= i < |works| ==> works[i] == Works(i)
    {
      seq(|refs|, i requires 0 <= i < |refs| => Works(i))
    }

    // The first reference that fails, or the number of references.
    function FirstFailing(): (f: nat)
      ensures f <= |refs|
    {
      FirstFalse(WorksList())
    }

    // How the upload fails, if some reference does.
    function Failure(): (e: Option<UploadError>)
      ensures e.Some? ==> e.value.NoRandom? || e.value.PutFailed? || e.value.NoURL?
    {
      if FirstFailing() < |refs| then Some(FailureAt(FirstFailing())) else None
    }

    predicate Succeeds() {
      Decodes() && forall i :: 0 <= i < |refs| ==> Works(i)
    }

    function BlobAt(i: nat): Blob
      requires i < |refs| && Body(i).Some?
    {
      Blob(Key(userID, Name(i)), Body(i).value, "template", "", "")
    }

    function Added(i: nat): (blobs: seq<Blob>)
      requires i < |refs| && Decodes()
      ensures |blobs| == if Empty(i) then 0 else 1
    {
      if Empty(i) then [] else [BlobAt(i)]
    }

    // The objects of the first n references.
    function Blobs(n: nat): (blobs: seq<Blob>)
      requires n <= |refs| && Decodes()
      ensures |blobs| == Count(n)
    {
      if n == 0 then [] else Blobs(n - 1) + Added(n - 1)
    }

    // Everything the upload tries to put, up to the reference that fails.
    function Tried(): seq<Blob>
      requires Decodes()
    {
      Blobs(if FirstFailing() < |refs| then FirstFailing() + 1 else |refs|)
    }

    // A reference with an image becomes its mime type and URL, any other passes through.
    function OutAt(i: nat): Fields
      requires i < |refs| && Works(i)
    {
      if Empty(i) then refs[i]
      else map["mime_type" := Str(Mime(i)), "url" := Str(env.resolve(Key(userID, Name(i))).value)]
    }
  }

  lemma FirstFailingIs(u: Upload)
    ensures u.FirstFailing() < |u.refs| ==> !u.Works(u.FirstFailing())
    ensures forall i :: 0 <= i < u.FirstFailing() ==> u.Works(i)
  {
    hide Upload.Works;
    forall i | 0 <= i < u.FirstFailing()
      ensures u.Works(i)
    {
      assert u.WorksList()[i];
    }
  }

  // The upload fails as its first failing reference does, and only if there is one.
  lemma FailsFirst(u: Upload, i: nat)
    requires i <= |u.refs| && (i < |u.refs| ==> !u.Works(i)) && forall k :: 0 <= k < i ==> u.Works(k)
    ensures u.Failure() == if i < |u.refs| then Some(u.FailureAt(i)) else None
  {
    hide Upload.Works, Upload.FailureAt;
    FirstFailingIs(u);
    assert u.FirstFailing() == i;
  }

  // Whether the references decode does not depend on the run.
  lemma DecodesInAnyRun(u: Upload, run: string)
    ensures u.Decodes() <==> u.(run := run).Decodes()
  {
    hide Encoded;
    var v := u.(run := run);
    assert forall i :: 0 <= i < |u.refs| ==> u.Empty(i) == v.Empty(i) && u.Body(i) == v.Body(i);
  }

  lemma {:induction false} CountGrows(u: Upload, i: nat, j: nat)
    requires i < j <= |u.refs|
    ensures u.Count(i) + (if u.Empty(i) then 0 else 1) <= u.Count(j)
    decreases j
  {
    hide Encoded;
    if i < j - 1 {
      CountGrows(u, i, j - 1);
    }
  }

  lemma CountNext(u: Upload, n: nat)
    requires n < |u.refs|
    ensures u.Count(n + 1) == u.Count(n) + if u.Empty(n) then 0 else 1
  {
  }

  // The decoded bodies, in step with the references.
  ghost predicate InStep(u: Upload, n: nat, decoded: seq<(Bytes, string)>)
    requires n <= |u.refs|
  {
    && |decoded| == u.Count(n)
    && forall i {:trigger u.Body(i)} :: 0 <= i < n && !u.Empty(i) ==>
         u.Count(i) < |decoded| && u.Body(i) == Some(decoded[u.Count(i)].0) && u.Mime(i) == decoded[u.Count(i)].1
  }

  lemma {:induction false} EmptyInStep(u: Upload, n: nat, decoded: seq<(Bytes, string)>)
    requires n < |u.refs| && InStep(u, n, decoded) && u.Empty(n)
    ensures InStep(u, n + 1, decoded)
  {
    hide Encoded, Text, OrPNG, Upload.Count;
    CountNext(u, n);
    forall i | 0 <= i < n + 1 && !u.Empty(i)
      ensures u.Count(i) < |decoded|
      ensures u.Body(i) == Some(decoded[u.Count(i)].0) && u.Mime(i) == decoded[u.Count(i)].1
    {
      assert i < n && u.Body(i) == u.Body(i);
    }
  }

  lemma {:induction false} ImageInStep(u: Upload, n: nat, decoded: seq<(Bytes, string)>, d: (Bytes, string))
    requires n < |u.refs| && InStep(u, n, decoded) && !u.Empty(n) && u.Body(n) == Some(d.0) && u.Mime(n) == d.1
    ensures InStep(u, n + 1, decoded + [d])
  {
    hide Encoded, Text, OrPNG, Upload.Count;
    CountNext(u, n);
    var decoded' := decoded + [d];
    forall i | 0 <= i < n + 1 && !u.Empty(i)
      ensures u.Count(i) < |decoded'|
      ensures u.Body(i) == Some(decoded'[u.Count(i)].0) && u.Mime(i) == decoded'[u.Count(i)].1
    {
      if i < n {
        CountGrows(u, i, n);
        assert decoded'[u.Count(i)] == decoded[u.Count(i)];
      }
    }
  }

  function Firsts(decoded: seq<(Bytes, string)>): (bodies: seq<Bytes>)
    ensures |bodies| == |decoded|
    ensures forall i :: 0 <= i < |bodies| ==> bodies[i] == decoded[i].0
  {
    seq(|decoded|, i requires 0 <= i < |decoded| => decoded[i].0)
  }

  lemma FirstsNext(decoded: seq<(Bytes, string)>, d: (Bytes, string))
    ensures WrapSize(Firsts(decoded + [d])) == Wrap64(WrapSize(Firsts(decoded)) + |d.0|)
  {
    assert Firsts(decoded + [d])[..|decoded|] == Firsts(decoded);
  }

  lemma NothingDecoded(u: Upload)
    ensures InStep(u, 0, []) && WrapSize(Firsts([])) == 0
  {
  }

  // The first pass.
  method DecodeAll(refs: seq<Fields>, env: Env, ghost u: Upload)
    returns (err: Option<UploadError>, decoded: seq<(Bytes, string)>, sum: int)
    requires u.env == env && u.refs == refs
    ensures err.None? <==> u.Decodes()
    ensures err.Some? ==>
              err.value.BadImage? && err.value.at < |refs| && !u.Empty(err.value.at) && u.Body(err.value.at).None?
    ensures err.None? ==> InStep(u, |refs|, decoded) && sum == WrapSize(Firsts(decoded))
  {
    hide Encoded, Text, TrimSpace, Wrap64, WrapSize, Upload.Works, Upload.Count, InStep;
    NothingDecoded(u);
    decoded, sum, err := [], 0, None;
    for i := 0 to |refs|
      invariant forall k :: 0 <= k < i && !u.Empty(k) ==> u.Body(k).Some?
      invariant InStep(u, i, decoded) && sum == WrapSize(Firsts(decoded))
    {
      var b64 := Encoded(refs[i]);
      if b64 == "" {
        EmptyInStep(u, i, decoded);
        continue;
      }
      var raw := env.decode(b64);
      if raw.None? {
        assert !u.Empty(i) && u.Body(i).None?;
        return Some(BadImage(i)), decoded, sum;
      }
      var mt := TrimSpace(Text(refs[i], "mime_type"));
      if mt == "" {
        mt := "image/png";
      }
      ImageInStep(u, i, decoded, (raw.value, mt));
      FirstsNext(decoded, (raw.value, mt));
      decoded := decoded + [(raw.value, mt)];
      sum := Wrap64(sum + |raw.value|);
    }
  }

  // The next decoded body is the one of the next reference with an image.
  lemma {:induction false} StillInStep(u: Upload, i: nat, decoded: seq<(Bytes, string)>)
    requires InStep(u, |u.refs|, decoded) && i < |u.refs| && !u.Empty(i)
    ensures u.Count(i) < |decoded|
    ensures u.Body(i) == Some(decoded[u.Count(i)].0) && u.Mime(i) == decoded[u.Count(i)].1
  {
    hide Upload.Count, Encoded, Text, OrPNG;
    assert u.Body(i) == u.Body(i); // what InStep speaks of
  }

  // No object of this run has been stored yet.
  ghost predicate FreshRun<V>(userID: string, run: string, objects: map<string, V>) {
    forall i: nat, ext :: Key(userID, Template(run, i, ext)) !in objects
  }

  ghost predicate Progress(u: Upload, n: nat, out: seq<Fields>, rows: seq<LedgerRow>, keys: seq<string>,
                           before: map<string, Bytes>, objects: map<string, Bytes>)
  {
    && n <= |u.refs| && u.Decodes() && |out| == n && |keys| == u.Count(n)
    && (forall i :: 0 <= i < n ==> u.Works(i) && out[i] == u.OutAt(i))
    && rows == RowsOf(u.Blobs(n)) && objects == Stored(before, u.Blobs(n))
    && ChangedOnlyAt(before, objects, keys) && NewKeys(before, keys)
  }

  lemma BlobsNext(u: Upload, n: nat)
    requires n < |u.refs| && u.Decodes()
    ensures u.Blobs(n + 1) == if u.Empty(n) then u.Blobs(n) else u.Blobs(n) + [u.BlobAt(n)]
  {
    hide Encoded, Upload.BlobAt;
    assert u.Blobs(n) + [] == u.Blobs(n);
  }

  // A reference that fails has an image.
  lemma FailingHasBlob(u: Upload, n: nat)
    requires n < |u.refs| && u.Decodes() && !u.Works(n)
    ensures u.Blobs(n + 1) != []
  {
    hide Encoded, Upload.Blobs;
    BlobsNext(u, n);
  }

  lemma EmptyPasses(u: Upload, n: nat)
    requires n < |u.refs| && u.Empty(n)
    ensures u.Works(n) && u.OutAt(n) == u.refs[n]
  {
    hide Encoded;
  }

  lemma Started(u: Upload, before: map<string, Bytes>)
    requires u.Decodes()
    ensures Progress(u, 0, [], [], [], before, before) && u.Count(0) == 0
  {
  }

  lemma {:induction false} Passed(u: Upload, n: nat, out: seq<Fields>, rows: seq<LedgerRow>, keys: seq<string>,
                                  before: map<string, Bytes>, objects: map<string, Bytes>)
    requires n < |u.refs| && Progress(u, n, out, rows, keys, before, objects) && u.Empty(n)
    ensures Progress(u, n + 1, out + [u.refs[n]], rows, keys, before, objects)
  {
    hide Encoded, Text, OrPNG, ExtForMIME, Key, Stored, RowsOf, ChangedOnlyAt, NewKeys, Upload.Name, Upload.BlobAt;
    hide Upload.Blobs, Upload.Count, Upload.Empty, Upload.Works;
    BlobsNext(u, n);
    CountNext(u, n);
    EmptyPasses(u, n);
  }

  lemma {:induction false} Advanced(u: Upload, n: nat, out: seq<Fields>, rows: seq<LedgerRow>, keys: seq<string>,
                                    before: map<string, Bytes>, objects: map<string, Bytes>,
                                    objects': map<string, Bytes>)
    requires n < |u.refs| && Progress(u, n, out, rows, keys, before, objects) && !u.Empty(n) && u.Works(n)
    requires objects' == objects[u.BlobAt(n).key := u.BlobAt(n).body]
    requires ChangedOnlyAt(before, objects', keys + [u.BlobAt(n).key]) && NewKeys(before, keys + [u.BlobAt(n).key])
    ensures Progress(u, n + 1, out + [u.OutAt(n)], rows + [RowOf(u.BlobAt(n))], keys + [u.BlobAt(n).key], before,
                     objects')
  {
    hide Encoded, Text, OrPNG, ExtForMIME, Key, Stored, RowsOf, ChangedOnlyAt, NewKeys, Upload.Name;
    hide Upload.Blobs, Upload.Count, Upload.Empty, Upload.Works;
    BlobsNext(u, n);
    CountNext(u, n);
    StoredAppend(before, u.Blobs(n), u.BlobAt(n));
  }

  lemma {:induction false} Tracked(u: Upload, n: nat, out: seq<Fields>, rows: seq<LedgerRow>, keys: seq<string>,
                                   before: map<string, Bytes>, objects: map<string, Bytes>)
    requires Progress(u, n, out, rows, keys, before, objects)
    ensures |out| == n <= |u.refs| && u.Decodes()
    ensures |keys| == u.Count(n) && ChangedOnlyAt(before, objects, keys) && NewKeys(before, keys)
    ensures objects - Deleted(keys) == before && forall i :: 0 <= i < n ==> u.Works(i)
  {
    hide Encoded, Text, OrPNG, ExtForMIME, Key, Stored, Upload.Name, Upload.BlobAt;
    Compensated(before, objects, keys);
  }

  lemma NextKeyIsNew(u: Upload, n: nat, keys: seq<string>, before: map<string, Bytes>)
    requires n < |u.refs| && FreshRun(u.userID, u.run, before) && NewKeys(before, keys)
    ensures NewKeys(before, keys + [Key(u.userID, u.Name(n))])
  {
    KeyIsTrimmed(u.userID, u.Name(n));
  }

  // The second pass; on an error it has taken everything back.
  method PutTemplates(st: Fake, userID: string, run: string, refs: seq<Fields>, decoded: seq<(Bytes, string)>,
                      env: Env, ghost u: Upload)
    returns (err: Option<UploadError>, out: seq<Fields>, rows: seq<LedgerRow>, keys: seq<string>)
    requires u == Upload(env, userID, run, refs) && u.Decodes() && InStep(u, |refs|, decoded)
    requires FreshRun(userID, run, st.objects)
    modifies st
    ensures err.Some? ==> st.objects == old(st.objects)
    ensures err == u.Failure()
    ensures err.None? ==> Progress(u, |refs|, out, rows, keys, old(st.objects), st.objects)
  {
    hide Progress, FreshRun, NewKeys, ChangedOnlyAt, Encoded, Text, TrimSpace, Key, Stored, InStep, Upload.Count;
    hide Upload.Failure, Upload.Decodes;
    out, rows, keys, err := [], [], [], None;
    var di := 0;
    ghost var before := st.objects;
    Started(u, before);
    for i := 0 to |refs|
      invariant Progress(u, i, out, rows, keys, before, st.objects) && di == u.Count(i)
    {
      Tracked(u, i, out, rows, keys, before, st.objects);
      CountNext(u, i);
      if Encoded(refs[i]) == "" {
        Passed(u, i, out, rows, keys, before, st.objects);
        out := out + [refs[i]];
        continue;
      }
      StillInStep(u, i, decoded);
      if di >= |decoded| {
        assert false;
        break;
      }
      var d := decoded[di];
      di := di + 1;
      var logical := Key(userID, Template(run, |keys|, ExtForMIME(d.1)));
      assert logical == u.BlobAt(i).key && d.0 == u.BlobAt(i).body;
      NextKeyIsNew(u, i, keys, before);
      ghost var objects, was := st.objects, keys;
      var end;
      end, keys := PutTracked(st, logical, d.0, keys, env, before);
      if end.NotPut? {
        FailsFirst(u, i);
        return Some(PutFailed(i)), out, rows, keys;
      }
      if end.Unresolved? {
        FailsFirst(u, i);
        return Some(NoURL(i)), out, rows, keys;
      }
      Advanced(u, i, out, rows, was, before, objects, st.objects);
      rows := rows + [LedgerRow("", logical, |d.0|, "template", "")];
      out := out + [map["mime_type" := Str(d.1), "url" := Str(end.url)]];
    }
    Tracked(u, |refs|, out, rows, keys, before, st.objects);
    FailsFirst(u, |refs|);
  }

  // The size the unlocked check asks about is the size the ledger is charged.
  lemma {:induction false} DecodedSizeIsCharged(u: Upload, n: nat, decoded: seq<(Bytes, string)>)
    requires n <= |u.refs| && u.Decodes() && InStep(u, n, decoded)
    ensures WrapSize(Firsts(decoded)) == WrapSum(RowsOf(u.Blobs(n)))
    decreases n
  {
    hide Encoded, Text, OrPNG, Key, Wrap64, Upload.Name, Upload.Count, InStep, WrapSum, WrapSize;
    if n == 0 {
      NoSize(u, decoded);
    } else {
      CountNext(u, n - 1);
      if u.Empty(n - 1) {
        InStepLength(u, n, decoded);
        InStepBefore(u, n - 1, decoded, decoded);
        DecodedSizeIsCharged(u, n - 1, decoded);
        assert u.Blobs(n) == u.Blobs(n - 1);
      } else {
        var m := LastInStep(u, n, decoded);
        InStepBefore(u, n - 1, decoded, decoded[..m]);
        DecodedSizeIsCharged(u, n - 1, decoded[..m]);
        assert decoded == decoded[..m] + [decoded[m]];
        FirstsNext(decoded[..m], decoded[m]);
        RowsSizeNext(u.Blobs(n - 1), u.BlobAt(n - 1));
      }
    }
  }

  lemma InStepLength(u: Upload, n: nat, decoded: seq<(Bytes, string)>)
    requires n <= |u.refs| && InStep(u, n, decoded)
    ensures |decoded| == u.Count(n) && decoded == decoded[..u.Count(n)]
  {
  }

  lemma NoSize(u: Upload, decoded: seq<(Bytes, string)>)
    requires InStep(u, 0, decoded) && u.Decodes()
    ensures WrapSize(Firsts(decoded)) == 0 == WrapSum(RowsOf(u.Blobs(0)))
  {
  }

  lemma RowsSizeNext(blobs: seq<Blob>, b: Blob)
    ensures WrapSum(RowsOf(blobs + [b])) == Wrap64(WrapSum(RowsOf(blobs)) + |b.body|)
  {
    assert RowsOf(blobs + [b])[..|blobs|] == RowsOf(blobs);
  }

  lemma LastInStep(u: Upload, n: nat, decoded: seq<(Bytes, string)>) returns (m: nat)
    requires 0 < n <= |u.refs| && InStep(u, n, decoded) && !u.Empty(n - 1)
    ensures |decoded| == m + 1 && m == u.Count(n - 1) && u.Body(n - 1) == Some(decoded[m].0)
  {
    m := u.Count(n - 1);
  }

  lemma {:induction false} InStepBefore(u: Upload, n: nat, decoded: seq<(Bytes, string)>, before: seq<(Bytes, string)>)
    requires n < |u.refs| && InStep(u, n + 1, decoded) && u.Count(n) <= |decoded| && before == decoded[..u.Count(n)]
    ensures InStep(u, n, before)
  {
    hide Encoded, Text, OrPNG, Upload.Count;
    forall i | 0 <= i < n && !u.Empty(i)
      ensures u.Count(i) < |before| && before[u.Count(i)] == decoded[u.Count(i)]
    {
      CountGrows(u, i, n);
    }
  }

  // The upload has succeeded: one reference for each reference, and exactly their objects added.
  ghost predicate Done(u: Upload, out: seq<Fields>, before: map<string, Bytes>, objects: map<string, Bytes>) {
    && u.Succeeds()
    && |out| == |u.refs| && (forall i :: 0 <= i < |out| ==> u.Works(i) && out[i] == u.OutAt(i))
    && objects == Stored(before, u.Blobs(|u.refs|))
  }

  lemma {:induction false} AllDone(u: Upload, out: seq<Fields>, rows: seq<LedgerRow>, keys: seq<string>,
                                   before: map<string, Bytes>, objects: map<string, Bytes>)
    requires Progress(u, |u.refs|, out, rows, keys, before, objects)
    ensures Done(u, out, before, objects) && rows == RowsOf(u.Blobs(|u.refs|))
  {
  }

  ghost predicate HasImage(refs: seq<Fields>) {
    exists i :: 0 <= i < |refs| && Encoded(refs[i]) != ""
  }

  // Whether there is anything to do.
  ghost predicate Uploads(st: Fake?, userID: string, refs: seq<Fields>) {
    st != null && userID != "" && HasImage(refs)
  }

  /**
   On any error nothing has changed, and no list is returned. On success the list has kept its
   length and order, the store has gained exactly the objects of its images, and their rows are
   in the ledger. A refused check would have taken the user over the quota by the exact size.
   */
  method UploadTemplateReferences(st: Fake?, db: QuotaDb?, userID: string, refs: seq<Fields>, env: Env)
    returns (err: Option<UploadError>, out: seq<Fields>)
    requires st != null && env.draw(0).Some? ==> FreshRun(userID, env.draw(0).value, st.objects)
    requires db != null ==> UniqueIds(db.ledger)
    modifies st, db
    ensures !Uploads(st, userID, refs) ==> err.None? && out == refs
    ensures (!Uploads(st, userID, refs) || err.Some?) && st != null ==> st.objects == old(st.objects)
    ensures (!Uploads(st, userID, refs) || err.Some?) && db != null ==> db.View() == old(db.View())
    ensures err.Some? ==> out == []
    ensures Uploads(st, userID, refs) ==>
              (err.Some? && err.value.BadImage? <==> !Upload(env, userID, "", refs).Decodes())
    ensures Uploads(st, userID, refs) && env.draw(0).Some? ==>
              var u := Upload(env, userID, env.draw(0).value, refs);
              u.Decodes() && err != Some(OverQuota) && err != Some(UnknownUser) ==>
                && (err.Some? ==> if u.Failure().Some? then err == u.Failure() else err.value.Ledger?)
                && (db != null ==>
                      Ends(old(db.View()), db.View(), userID, RowsOf(u.Blobs(|refs|)), env.now, u.Failure(), err))
    ensures Uploads(st, userID, refs) && err == Some(OverQuota) && env.draw(0).Some? ==>
              var u := Upload(env, userID, env.draw(0).value, refs);
              db != null && u.Decodes() && Exceeds(old(db.View()), userID, WrapSum(RowsOf(u.Blobs(|refs|))))
    ensures Uploads(st, userID, refs) && err.None? ==>
              && env.draw(0).Some?
              && var u := Upload(env, userID, env.draw(0).value, refs);
              && Done(u, out, old(st.objects), st.objects)
  {
    hide FreshRun, HasImage, AppendOutcome, Ends, Exceeds, Stored, UniqueIds, WrapSize, WrapSum, Encoded, InStep;
    hide Upload.Works, Upload.Failure, Upload.Count, Upload.Decodes, Upload.Blobs, Upload.Body, Upload.Empty;
    hide Progress, Done;
    NoRefs();
    if st == null || userID == "" || |refs| == 0 {
      return None, refs;
    }
    ghost var u := Upload(env, userID, if env.draw(0).Some? then env.draw(0).value else "", refs);
    var decoded, sum;
    DecodesInAnyRun(u, "");
    err, decoded, sum := DecodeAll(refs, env, u);
    if err.Some? {
      SomeImage(u, err.value.at);
      return err, [];
    }
    CountedImages(u, decoded);
    if |decoded| == 0 {
      return None, refs;
    }
    if db != null {
      var ok, used, quota, found := db.CheckQuota(userID, sum);
      if !found {
        return Some(UnknownUser), [];
      }
      if !ok {
        DecodedSizeIsCharged(u, |refs|, decoded);
        return Some(OverQuota), [];
      }
    }
    var run := env.draw(0);
    if run.None? {
      return Some(NoRandom), [];
    }
    err, out := StoreTemplates(st, db, userID, run.value, refs, decoded, env, u);
  }

  lemma NoRefs()
    ensures !HasImage([])
  {
  }

  lemma SomeImage(u: Upload, i: nat)
    requires i < |u.refs| && !u.Empty(i)
    ensures HasImage(u.refs)
  {
  }

  lemma CountedImages(u: Upload, decoded: seq<(Bytes, string)>)
    requires InStep(u, |u.refs|, decoded)
    ensures decoded != [] <==> HasImage(u.refs)
  {
    hide Encoded;
    SomeCounted(u, |u.refs|);
  }

  lemma {:induction false} SomeCounted(u: Upload, n: nat)
    requires n <= |u.refs|
    ensures u.Count(n) > 0 <==> exists k :: 0 <= k < n && Encoded(u.refs[k]) != ""
  {
    hide Encoded;
    if n > 0 {
      SomeCounted(u, n - 1);
    }
  }

  // Puts and records the decoded references.
  method StoreTemplates(st: Fake, db: QuotaDb?, userID: string, run: string, refs: seq<Fields>,
                        decoded: seq<(Bytes, string)>, env: Env, ghost u: Upload)
    returns (err: Option<UploadError>, out: seq<Fields>)
    requires u == Upload(env, userID, run, refs) && u.Decodes() && InStep(u, |refs|, decoded)
    requires FreshRun(userID, run, st.objects) && (db != null ==> UniqueIds(db.ledger))
    modifies st, db
    ensures err.Some? ==> st.objects == old(st.objects) && out == []
    ensures err.Some? ==> if u.Failure().Some? then err == u.Failure() else err.value.Ledger?
    ensures err.None? ==> u.Failure().None? && Done(u, out, old(st.objects), st.objects)
    ensures err.Some? && db != null ==> db.View() == old(db.View())
    ensures db != null ==> Ends(old(db.View()), db.View(), userID, RowsOf(u.Blobs(|refs|)), env.now, u.Failure(), err)
  {
    hide FreshRun, Stored, UniqueIds, InStep, Encoded, Upload.Works, Upload.Failure, Upload.Count, Progress, Done;
    var rows, keys;
    err, out, rows, keys := PutTemplates(st, userID, run, refs, decoded, env, u);
    if err.Some? {
      return err, [];
    }
    Tracked(u, |refs|, out, rows, keys, old(st.objects), st.objects);
    AllDone(u, out, rows, keys, old(st.objects), st.objects);
    var failed := Record(st, db, userID, rows, keys, env.now, env.tx);
    if failed.Some? {
      return Some(Ledger(failed.value)), [];
    }
    return None, out;
  }

  // The object put as number c is named after c.
  lemma {:induction false} BlobName(u: Upload, n: nat, c: nat) returns (ext: string)
    requires n <= |u.refs| && u.Decodes() && c < u.Count(n)
    ensures IsExt(ext) && u.Blobs(n)[c].key == Key(u.userID, Template(u.run, c, ext))
  {
    hide Encoded, Text, OrPNG, Key;
    if !u.Empty(n - 1) && c == u.Count(n - 1) {
      ext := ExtForMIME(u.Mime(n - 1));
    } else {
      ext := BlobName(u, n - 1, c);
    }
  }

  // No two objects share a key, and none has been named before.
  lemma {:induction false} TemplateBlobsAreDistinct<V>(u: Upload, n: nat, before: map<string, V>)
    requires n <= |u.refs| && u.Decodes() && FreshRun(u.userID, u.run, before)
    ensures DistinctBlobs(u.Blobs(n))
    ensures forall b :: b in u.Blobs(n) ==> b.key !in before
  {
    hide Upload.Blobs, Upload.Count, FreshRun, Key;
    forall i, j | 0 <= i < j < u.Count(n)
      ensures u.Blobs(n)[i].key != u.Blobs(n)[j].key
    {
      var x := BlobName(u, n, i);
      var y := BlobName(u, n, j);
      NumbersDiffer(u, i, x, j, y);
    }
    forall i | 0 <= i < u.Count(n)
      ensures u.Blobs(n)[i].key !in before
    {
      var x := BlobName(u, n, i);
      NameIsNew(u, i, x, before);
    }
  }

  lemma NumbersDiffer(u: Upload, i: nat, x: string, j: nat, y: string)
    requires i != j && IsExt(x) && IsExt(y)
    ensures Key(u.userID, Template(u.run, i, x)) != Key(u.userID, Template(u.run, j, y))
  {
    var a, b := Template(u.run, i, x), Template(u.run, j, y);
    if Key(u.userID, a) == Key(u.userID, b) {
      BaseHasNoSlash(a);
      BaseHasNoSlash(b);
      KeyParts(u.userID, a, u.userID, b);
      NumberedBases(a, b);
    }
  }

  lemma NameIsNew<V>(u: Upload, i: nat, ext: string, before: map<string, V>)
    requires FreshRun(u.userID, u.run, before)
    ensures Key(u.userID, Template(u.run, i, ext)) !in before
  {
  }

  lemma {:induction false} BlobOfReference(u: Upload, i: nat, n: nat)
    requires i < n <= |u.refs| && u.Decodes() && !u.Empty(i)
    ensures u.Count(i) < u.Count(n) && u.Blobs(n)[u.Count(i)] == u.BlobAt(i)
  {
    hide Encoded, Text, OrPNG, Key, Upload.BlobAt;
    if i < n - 1 {
      BlobOfReference(u, i, n - 1);
    }
  }

  /**
   After a successful upload every reference with an image has been replaced by the URL of an
   object that holds exactly its own bytes, the others have passed through, no two keys are
   equal, and the rows record exactly what has been added.
   */
  lemma {:induction false} TemplatesAreServed(u: Upload, out: seq<Fields>, before: map<string, Bytes>,
                                              objects: map<string, Bytes>, i: nat)
    requires Done(u, out, before, objects) && FreshRun(u.userID, u.run, before) && i < |u.refs|
    ensures RecordsExactly(before, objects, RowsOf(u.Blobs(|u.refs|)))
    ensures |out| == |u.refs|
    ensures u.Empty(i) ==> out[i] == u.refs[i]
    ensures !u.Empty(i) ==> exists key ::
              && key in objects && Some(objects[key]) == u.Body(i)
              && u.env.resolve(key).Some?
              && out[i] == map["mime_type" := Str(u.Mime(i)), "url" := Str(u.env.resolve(key).value)]
  {
    hide Encoded, Text, OrPNG, Key, FreshRun, RecordsExactly, DistinctBlobs, Upload.Count, Upload.Blobs;
    TemplateBlobsAreDistinct(u, |u.refs|, before);
    BlobsAreRecorded(before, u.Blobs(|u.refs|));
    if !u.Empty(i) {
      BlobOfReference(u, i, |u.refs|);
      BodiesAreStored(before, u.Blobs(|u.refs|), u.Count(i));
      var key := u.BlobAt(i).key;
      assert u.Works(i) && u.env.resolve(key).Some?;
      assert key in objects && objects[key] == u.Body(i).value;
    }
  }
}
