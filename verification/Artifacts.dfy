/**
 Keeping a job's images on the local disk (materializeJobImages in internal/api/artifacts.go) and
 reading them back (readLocalArtifactBytes in internal/api/oss_materialize.go). Whether the disk
 takes a file is given.
 */
module Artifacts {
  import opened GoStrings
  import opened Jobs
  import opened ObjectKeys
  import opened ObjStore
  import opened OutputUpload

  // enabled: a directory is configured; writes: whether a file of the job's directory can be
  // written; shrinks: the thumbnail of some bytes, if it can be made and written.
  datatype Disk = Disk(enabled: bool, makesFolder: bool, decode: string -> Option<Bytes>, writes: string -> bool,
                       shrinks: (string, Bytes, string) -> Option<Bytes>)

  // The artifacts directory: what its files hold, by job and name.
  class Folder {
    var files: map<string, Bytes>

    constructor ()
      ensures files == map[]
    {
      files := map[];
    }
  }

  datatype DiskError = InvalidJobID | NoFolder | NotDecoded(at: nat) | NotWritten(at: nat)

  predicate IsJobID(id: string) {
    |id| == 32 && forall c :: c in id ==> 'a' <= c <= 'f' || '0' <= c <= '9'
  }

  function FileName(i: nat, d: Image): string {
    Itoa(i) + "." + ExtForMIME(d.mimeType)
  }

  function ThumbName(i: nat): string {
    Itoa(i) + "_thumb.jpg"
  }

  function Path(id: string, name: string): string {
    id + "/" + name
  }

  function LocalURL(id: string, name: string): string {
    "/api/artifacts/" + id + "/" + name
  }

  // How slot i keeps the whole job from being written.
  function SlotError(disk: Disk, i: nat, d: Image): Option<DiskError> {
    if TrimSpace(d.b64JSON) == "" then None
    else if disk.decode(TrimSpace(d.b64JSON)).None? then Some(NotDecoded(i))
    else if !disk.writes(FileName(i, d)) then Some(NotWritten(i))
    else None
  }

  // The slot afterwards.
  function LocalImage(disk: Disk, id: string, i: nat, d: Image): Image {
    if TrimSpace(d.b64JSON) == "" then d
    else
      d.(url := LocalURL(id, FileName(i, d)), b64JSON := "",
         thumbURL := if SlotThumb(disk, i, d).Some? then LocalURL(id, ThumbName(i)) else d.thumbURL)
  }

  function SlotThumb(disk: Disk, i: nat, d: Image): Option<Bytes> {
    var b := disk.decode(TrimSpace(d.b64JSON));
    if b.None? then None else disk.shrinks(ThumbName(i), b.value, d.mimeType)
  }

  // The files after writing slot i.
  function AfterSlot(disk: Disk, id: string, i: nat, d: Image, files: map<string, Bytes>): map<string, Bytes> {
    var b := disk.decode(TrimSpace(d.b64JSON));
    if TrimSpace(d.b64JSON) == "" || b.None? then files
    else
      var main := files[Path(id, FileName(i, d)) := b.value];
      if SlotThumb(disk, i, d).None? then main else main[Path(id, ThumbName(i)) := SlotThumb(disk, i, d).value]
  }

  // The files after the first n slots.
  function AfterSlots(disk: Disk, id: string, data: seq<Image>, n: nat, files: map<string, Bytes>): map<string, Bytes>
    requires n <= |data|
  {
    if n == 0 then files else AfterSlot(disk, id, n - 1, data[n - 1], AfterSlots(disk, id, data, n - 1, files))
  }

  function LocalImages(disk: Disk, id: string, data: seq<Image>): (r: seq<Image>)
    ensures |r| == |data|
    ensures forall i :: 0 <= i < |r| ==> r[i] == LocalImage(disk, id, i, data[i])
  {
    seq(|data|, i requires 0 <= i < |data| => LocalImage(disk, id, i, data[i]))
  }

  function FineSlots(disk: Disk, data: seq<Image>): (fine: seq<bool>)
    ensures |fine| == |data|
    ensures forall i :: 0 <= i < |fine| ==> fine[i] == SlotError(disk, i, data[i]).None?
  {
    seq(|data|, i requires 0 <= i < |data| => SlotError(disk, i, data[i]).None?)
  }

  // Whether a job's images are to be written at all.
  predicate Idle(disk: Disk, data: seq<Image>) {
    !disk.enabled || data == []
  }

  // How writing a job's images fails, if it does: the first slot that fails decides.
  function JobError(disk: Disk, id: string, data: seq<Image>): Option<DiskError> {
    if !disk.enabled then None
    else if !IsJobID(id) then Some(InvalidJobID)
    else if data == [] then None
    else if !disk.makesFolder then Some(NoFolder)
    else
      var first := FirstFalse(FineSlots(disk, data));
      if first < |data| then SlotError(disk, first, data[first]) else None
  }

  // What a job shows after its images have been written.
  function Written(disk: Disk, id: string, data: seq<Image>): (r: seq<Image>)
    ensures |r| == |data|
  {
    if Idle(disk, data) then data else LocalImages(disk, id, data)
  }

  // How many slots are written: those before the first that fails.
  function SlotsWritten(disk: Disk, id: string, data: seq<Image>): (n: nat)
    ensures n <= |data|
  {
    if Idle(disk, data) || !IsJobID(id) || !disk.makesFolder then 0 else FirstFalse(FineSlots(disk, data))
  }

  // The files that a job leaves behind.
  function FilesLeft(disk: Disk, id: string, data: seq<Image>, files: map<string, Bytes>): map<string, Bytes> {
    AfterSlots(disk, id, data, SlotsWritten(disk, id, data), files)
  }

  lemma FirstSlotError(disk: Disk, data: seq<Image>, i: nat)
    requires i <= |data| && (i < |data| ==> SlotError(disk, i, data[i]).Some?)
    requires forall k :: 0 <= k < i ==> SlotError(disk, k, data[k]).None?
    ensures FirstFalse(FineSlots(disk, data)) == i
  {
    hide SlotError;
    var fine := FineSlots(disk, data);
    assert forall k :: 0 <= k < i ==> fine[k];
  }

  /**
   Either every slot with an encoded image now shows a local file, or the result is as before; the
   files of the slots before the first failing one stay.
   */
  method MaterializeJobImages(dir: Folder, disk: Disk, id: string, out: Response) returns (err: Option<DiskError>)
    modifies dir, out
    ensures dir.files == if old(out.data).None? then old(dir.files)
                         else FilesLeft(disk, id, old(out.data).value, old(dir.files))
    ensures old(out.data).None? ==> out.data.None? && err == JobError(disk, id, [])
    ensures old(out.data).Some? ==>
              var data := old(out.data).value;
              err == JobError(disk, id, data) && out.data == Some(if err.None? then Written(disk, id, data) else data)
  {
    hide SlotError, LocalImage, IsJobID, AfterSlot;
    if !disk.enabled {
      return None;
    }
    if !IsJobID(id) {
      return Some(InvalidJobID);
    }
    if out.data.None? || |out.data.value| == 0 {
      return None;
    }
    var raw := out.data.value;
    if !disk.makesFolder {
      return Some(NoFolder);
    }
    var next := raw;
    for i := 0 to |raw|
      invariant |next| == |raw| && out.data == Some(raw)
      invariant dir.files == AfterSlots(disk, id, raw, i, old(dir.files))
      invariant forall k :: 0 <= k < i ==>
                SlotError(disk, k, raw[k]).None? && next[k] == LocalImage(disk, id, k, raw[k])
      invariant forall k :: i <= k < |raw| ==> next[k] == raw[k]
    {
      var hosted;
      err, hosted := WriteSlot(dir, disk, id, i, next[i]);
      if err.Some? {
        FirstSlotError(disk, raw, i);
        return;
      }
      next := next[i := hosted];
    }
    FirstSlotError(disk, raw, |raw|);
    assert next == LocalImages(disk, id, raw);
    out.data := Some(next);
    return None;
  }

  // Writes the file of one slot, and its thumbnail if that works.
  method WriteSlot(dir: Folder, disk: Disk, id: string, i: nat, d: Image)
    returns (err: Option<DiskError>, hosted: Image)
    modifies dir
    ensures err == SlotError(disk, i, d)
    ensures err.None? ==> hosted == LocalImage(disk, id, i, d)
    ensures dir.files == if err.None? then AfterSlot(disk, id, i, d, old(dir.files)) else old(dir.files)
  {
    hosted := d;
    if TrimSpace(d.b64JSON) == "" {
      return None, hosted;
    }
    var b := disk.decode(TrimSpace(d.b64JSON));
    if b.None? {
      return Some(NotDecoded(i)), hosted;
    }
    var name := Itoa(i) + "." + ExtForMIME(d.mimeType);
    if !disk.writes(name) {
      return Some(NotWritten(i)), hosted;
    }
    dir.files := dir.files[Path(id, name) := b.value];
    hosted := hosted.(url := "/api/artifacts/" + id + "/" + name, b64JSON := "");
    var thumbName := Itoa(i) + "_thumb.jpg";
    var thumb := disk.shrinks(thumbName, b.value, d.mimeType);
    if thumb.Some? {
      dir.files := dir.files[Path(id, thumbName) := thumb.value];
      hosted := hosted.(thumbURL := "/api/artifacts/" + id + "/" + thumbName);
    }
    return None, hosted;
  }

  function MimeFromArtifactExt(ext: string): string {
    if ext == "jpg" || ext == "jpeg" then "image/jpeg"
    else if ext == "webp" then "image/webp"
    else if ext == "gif" then "image/gif"
    else "image/png"
  }

  // The text after the last mark, or all of it.
  function AfterLast(s: string, mark: char): string {
    s[LastIndex(s, mark) + 1..]
  }

  // What a job's local URL reads back.
  function ReadLocal(disk: Disk, id: string, files: map<string, Bytes>, url: string): Option<(Bytes, string)> {
    var folder := "/api/artifacts/" + id + "/";
    if !disk.enabled || !HasPrefix(url, folder) then None
    else
      var name := AfterLast(url[|folder|..], '/');
      if Path(id, name) !in files then None
      else Some((files[Path(id, name)], MimeFromArtifactExt(AfterLast(name, '.'))))
  }

  // No two files of a job share a name.
  lemma NamesDiffer(id: string, i: nat, d: Image, k: nat, d': Image)
    ensures i != k ==> Path(id, FileName(i, d)) != Path(id, FileName(k, d'))
    ensures Path(id, FileName(i, d)) != Path(id, ThumbName(k))
  {
    hide ExtForMIME, Itoa;
    var a, b, t := Primary(id, i, ExtForMIME(d.mimeType)), Primary(id, k, ExtForMIME(d'.mimeType)), Thumb(id, k);
    KeysOfOneJob("", id, a, b);
    KeysOfOneJob("", id, a, t);
    KeyOfName(id, a, FileName(i, d));
    KeyOfName(id, b, FileName(k, d'));
    assert ThumbName(k) == t.Base() + "." + t.Ext();
    KeyOfName(id, t, ThumbName(k));
  }

  lemma KeyOfName(id: string, name: ObjectName, file: string)
    requires name.OfJob(id) && file == name.Base() + "." + name.Ext()
    ensures Key("", name) == Root("", "jobs") + "/" + Path(id, file)
  {
  }

  // A file that has been written keeps its bytes.
  lemma {:induction false} FileKept(disk: Disk, id: string, data: seq<Image>, i: nat, n: nat, files: map<string, Bytes>)
    requires i < n <= |data| && TrimSpace(data[i].b64JSON) != "" && disk.decode(TrimSpace(data[i].b64JSON)).Some?
    ensures var path := Path(id, FileName(i, data[i]));
            var after := AfterSlots(disk, id, data, n, files);
            path in after && after[path] == disk.decode(TrimSpace(data[i].b64JSON)).value
    decreases n
  {
    hide TrimSpace, Path, FileName, ThumbName, SlotThumb;
    NamesDiffer(id, i, data[i], n - 1, data[n - 1]);
    if i < n - 1 {
      FileKept(disk, id, data, i, n - 1, files);
    }
  }

  // The URL of a written slot reads back its bytes.
  lemma {:induction false} WrittenIsRead(disk: Disk, id: string, data: seq<Image>, i: nat, files: map<string, Bytes>)
    requires disk.enabled && JobError(disk, id, data).None? && i < |data| && TrimSpace(data[i].b64JSON) != ""
    ensures SlotError(disk, i, data[i]).None?
    ensures ReadLocal(disk, id, FilesLeft(disk, id, data, files), LocalURL(id, FileName(i, data[i])))
         == Some((disk.decode(TrimSpace(data[i].b64JSON)).value, MimeFromArtifactExt(ExtForMIME(data[i].mimeType))))
  {
    hide TrimSpace, MimeFromArtifactExt, AfterSlots, ExtForMIME, AfterLast, Itoa;
    AllFine(disk, id, data, i);
    FileKept(disk, id, data, i, |data|, files);
    var name := FileName(i, data[i]);
    var folder := "/api/artifacts/" + id + "/";
    assert LocalURL(id, name) == folder + name && (folder + name)[|folder|..] == name;
    NameParts(i, data[i]);
  }

  lemma AllFine(disk: Disk, id: string, data: seq<Image>, i: nat)
    requires disk.enabled && JobError(disk, id, data).None? && i < |data|
    ensures SlotsWritten(disk, id, data) == |data| && SlotError(disk, i, data[i]).None?
  {
    hide SlotError;
    assert FineSlots(disk, data)[i];
  }

  // What a file's name shows after its last slash and its last dot.
  lemma NameParts(i: nat, d: Image)
    ensures AfterLast(FileName(i, d), '/') == FileName(i, d)
    ensures AfterLast(FileName(i, d), '.') == ExtForMIME(d.mimeType)
  {
    hide ExtForMIME, Itoa;
    var ext := ExtForMIME(d.mimeType);
    ExtHasNoMarks(ext);
    ItoaDigits(i);
    LastIndexBeforeSuffix(Itoa(i), '.', ext);
    NoLastIndex(FileName(i, d), '/');
  }

  lemma {:induction false} NoLastIndex(s: string, c: char)
    requires c !in s
    ensures LastIndex(s, c) == -1
  {
    if s != "" {
      NoLastIndex(s[..|s| - 1], c);
    }
  }

  // The extension survives the way through the mime type of the file.
  lemma ExtOfMimeOfExt(ext: string)
    requires IsExt(ext)
    ensures ExtForMIME(MimeFromArtifactExt(ext)) == ext
  {
    hide TrimSpace;
    var m := MimeFromArtifactExt(ext);
    LowerMime(m);
  }

  lemma LowerMime(m: string)
    requires m == "image/jpeg" || m == "image/webp" || m == "image/gif" || m == "image/png"
    ensures ToLower(TrimSpace(m)) == m
  {
    hide TrimSpace;
    TrimSpaceFixed(m);
    assert ToLower(m) == m;
  }

  lemma ExtOfTrimmed(mime: string)
    ensures ExtForMIME(OrPNG(TrimSpace(mime))) == ExtForMIME(mime)
  {
    hide TrimSpace;
    TrimSpaceTrims(mime);
    TrimSpaceFixed(TrimSpace(mime));
    LowerMime("image/png");
    assert ToLower("") == "";
  }

  lemma LocalURLIsLocal(id: string, i: nat, d: Image)
    ensures var u := LocalURL(id, FileName(i, d));
            TrimSpace(u) == u && HasPrefix(u, "/api/artifacts/") && u != ""
  {
    var u := LocalURL(id, FileName(i, d));
    var ext := ExtForMIME(d.mimeType);
    hide ExtForMIME;
    assert u[|u| - 1] == ext[|ext| - 1];
    TrimSpaceFixed(u);
  }

  /**
   Keeping a local copy first does not change what the object store gets: the slots then read the
   files that were written, and the same bytes go under the same keys.
   */
  lemma {:induction false} LocalCopyHostsTheSame(disk: Disk, data: seq<Image>, files: map<string, Bytes>, s: Slot)
    requires disk.enabled && JobError(disk, s.jobID, data).None? && disk.decode == s.env.decode
    requires s.at < |data| && s.image == data[s.at] && TrimSpace(s.image.b64JSON) != ""
    requires forall u :: s.src.readArtifact(u) == ReadLocal(disk, s.jobID, FilesLeft(disk, s.jobID, data, files), u)
    ensures var local := s.(image := LocalImage(disk, s.jobID, s.at, s.image));
            && s.Got().Some? && local.Got().Some?
            && local.Got().value.0 == s.Got().value.0 && local.PrimaryKey() == s.PrimaryKey()
  {
    hide ExtForMIME, MimeFromArtifactExt, LocalURL, FileName, Key, OrPNG, ReadLocal, FilesLeft, JobError, SlotThumb;
    WrittenIsRead(disk, s.jobID, data, s.at, files);
    TrimSpaceFixed("");
    LocalURLIsLocal(s.jobID, s.at, s.image);
    ExtOfMimeOfExt(ExtForMIME(s.image.mimeType));
    ExtOfTrimmed(s.image.mimeType);
  }
}
