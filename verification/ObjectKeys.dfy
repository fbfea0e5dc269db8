/**
 The names of stored objects: the keys internal/api/oss_materialize.go writes, the file
 extension of internal/api/artifacts.go, and the thumbnail key that
 internal/userstorage/assets.go derives from an output key.
 */
module ObjectKeys {
  import opened GoStrings

  predicate IsExt(ext: string) {
    ext == "jpg" || ext == "webp" || ext == "gif" || ext == "png"
  }

  function ExtForMIME(mime: string): (ext: string)
    ensures IsExt(ext)
  {
    var m := ToLower(TrimSpace(mime));
    if m == "image/jpeg" || m == "image/jpg" then "jpg"
    else if m == "image/webp" then "webp"
    else if m == "image/gif" then "gif"
    else "png"
  }

  function OrPNG(mime: string): string {
    if mime == "" then "image/png" else mime
  }

  datatype ObjectName =
    | Primary(jobID: string, i: nat, mainExt: string)
    | Thumb(jobID: string, i: nat)
    | Template(run: string, i: nat, templateExt: string)
    | Reference(suffix: string, refExt: string)
  {
    function Folder(userID: string): string {
      match this
      case Primary(jobID, _, _) => Root(userID, "jobs") + "/" + jobID
      case Thumb(jobID, _) => Root(userID, "jobs") + "/" + jobID
      case Template(run, _, _) => Root(userID, "templates") + "/" + run
      case Reference(_, _) => Root(userID, "refs")
    }

    function Base(): string {
      match this
      case Primary(_, i, _) => Itoa(i)
      case Thumb(_, i) => Itoa(i) + "_thumb"
      case Template(_, i, _) => Itoa(i)
      case Reference(suffix, _) => suffix
    }

    function Ext(): string {
      match this
      case Primary(_, _, ext) => ext
      case Thumb(_, _) => "jpg"
      case Template(_, _, ext) => ext
      case Reference(_, ext) => ext
    }

    predicate OfJob(id: string) {
      (Primary? || Thumb?) && jobID == id
    }

    // Job ids and random parts are hexadecimal, so they hold no slash.
    predicate Plain() {
      match this
      case Primary(jobID, _, _) => '/' !in jobID
      case Thumb(jobID, _) => '/' !in jobID
      case Template(run, _, _) => '/' !in run
      case Reference(suffix, _) => '/' !in suffix
    }
  }

  function Root(userID: string, kind: string): string {
    "users/" + userID + "/" + kind
  }

  function Key(userID: string, name: ObjectName): string {
    name.Folder(userID) + "/" + name.Base() + "." + name.Ext()
  }

  function ThumbKeyForOutput(objectKey: string): string {
    var k := TrimSpace(objectKey);
    if k == "" || !Contains(k, "/jobs/") then ""
    else if HasSuffix(k, "_thumb.jpg") then ""
    else
      var dot := LastIndex(k, '.');
      if dot <= 0 then "" else k[..dot] + "_thumb.jpg"
  }

  lemma ExtHasNoMarks(ext: string)
    requires IsExt(ext)
    ensures '.' !in ext && '/' !in ext && ext != "" && !IsSpace(ext[|ext| - 1])
  {
  }

  // What is deleted under a trimmed key is what was put under the key.
  lemma {:induction false} KeyIsTrimmed(userID: string, name: ObjectName)
    requires IsExt(name.Ext())
    ensures TrimSpace(Key(userID, name)) == Key(userID, name)
  {
    var k := Key(userID, name);
    assert k[0] == 'u';
    ExtHasNoMarks(name.Ext());
    assert k[|k| - 1] == name.Ext()[|name.Ext()| - 1];
    TrimSpaceFixed(k);
  }

  lemma LastIsDigit(x: string, i: nat)
    ensures var s := x + Itoa(i); s != "" && IsDigit(s[|s| - 1])
  {
    ItoaDigits(i);
    var s, d := x + Itoa(i), Itoa(i);
    assert s[|s| - 1] == d[|d| - 1] && d[|d| - 1] in d;
  }

  lemma Regroup(a: string, b: string, c: string, d: string, e: string)
    ensures a + (b + c) + d + e == a + b + (c + d + e)
  {
  }

  lemma NoThumbSuffix(stem: string, ext: string)
    requires IsExt(ext) && stem != "" && IsDigit(stem[|stem| - 1])
    ensures !HasSuffix(stem + "." + ext, "_thumb.jpg")
  {
    var k := stem + "." + ext;
    if |ext| == 4 {
      assert k[|k| - 4] == ext[0];
    } else {
      assert k[|k| - 5] == stem[|stem| - 1];
    }
    if |k| >= 10 {
      assert k[|k| - 10..][5] == k[|k| - 5] && k[|k| - 10..][6] == k[|k| - 4];
    }
  }

  lemma JobFolder(userID: string, jobID: string, rest: string)
    ensures Contains(Root(userID, "jobs") + "/" + jobID + rest, "/jobs/")
  {
    var k, at := Root(userID, "jobs") + "/" + jobID + rest, |"users/" + userID|;
    assert Root(userID, "jobs") == ("users/" + userID) + "/" + "jobs";
    assert k[at] == '/' && k[at + 1..at + 5] == "jobs" && k[at + 5] == '/';
    assert k[at..][..6] == "/jobs/";
  }

  /** The thumbnail key derived from a primary output key is the thumbnail key that was written. */
  lemma {:induction false} ThumbKeyOfPrimary(userID: string, jobID: string, i: nat, ext: string)
    requires IsExt(ext)
    ensures ThumbKeyForOutput(Key(userID, Primary(jobID, i, ext))) == Key(userID, Thumb(jobID, i))
  {
    hide Itoa, Root, TrimSpace, Contains, HasSuffix, LastIndex;
    var folder := Root(userID, "jobs") + "/" + jobID;
    PrimaryMarks(userID, jobID, i, ext);
    Regroup(folder + "/", Itoa(i), "_thumb", ".", "jpg");
    assert "_thumb" + "." + "jpg" == "_thumb.jpg";
  }

  // What the derivation looks at in a primary key.
  lemma PrimaryMarks(userID: string, jobID: string, i: nat, ext: string)
    requires IsExt(ext)
    ensures var stem := Root(userID, "jobs") + "/" + jobID + "/" + Itoa(i);
            var k := Key(userID, Primary(jobID, i, ext));
            && k == stem + "." + ext && k[..|stem|] == stem
            && TrimSpace(k) == k && Contains(k, "/jobs/") && !HasSuffix(k, "_thumb.jpg") && LastIndex(k, '.') == |stem|
  {
    hide Itoa, Root, TrimSpace, Contains, HasSuffix, LastIndex, IsExt;
    var folder := Root(userID, "jobs") + "/" + jobID;
    var stem := folder + "/" + Itoa(i);
    KeyIsTrimmed(userID, Primary(jobID, i, ext));
    assert stem + "." + ext == folder + ("/" + Itoa(i) + "." + ext);
    JobFolder(userID, jobID, "/" + Itoa(i) + "." + ext);
    LastIsDigit(folder + "/", i);
    NoThumbSuffix(stem, ext);
    ExtHasNoMarks(ext);
    LastIndexBeforeSuffix(stem, '.', ext);
  }

  lemma {:induction false} ThumbHasNoThumb(userID: string, jobID: string, i: nat)
    ensures ThumbKeyForOutput(Key(userID, Thumb(jobID, i))) == ""
  {
    var folder := Root(userID, "jobs") + "/" + jobID;
    var k := Key(userID, Thumb(jobID, i));
    assert TrimSpace(k) == k by { KeyIsTrimmed(userID, Thumb(jobID, i)); }
    Regroup(folder + "/", Itoa(i), "_thumb", ".", "jpg");
    assert "_thumb" + "." + "jpg" == "_thumb.jpg";
    assert k[|k| - 10..] == "_thumb.jpg";
  }

  lemma BaseHasNoSlash(name: ObjectName)
    requires name.Plain() || !name.Reference?
    ensures '/' !in name.Base()
  {
    if !name.Reference? {
      ItoaDigits(name.i);
    }
  }

  // A key falls apart into folder, base name and extension.
  lemma KeyParts(u: string, a: ObjectName, v: string, b: ObjectName)
    requires Key(u, a) == Key(v, b) && IsExt(a.Ext()) && IsExt(b.Ext())
    requires '/' !in a.Base() && '/' !in b.Base()
    ensures a.Folder(u) == b.Folder(v) && a.Base() == b.Base() && a.Ext() == b.Ext()
  {
    ExtHasNoMarks(a.Ext());
    ExtHasNoMarks(b.Ext());
    CutAtLast(a.Folder(u) + "/" + a.Base(), b.Folder(v) + "/" + b.Base(), '.', a.Ext(), b.Ext());
    CutAtLast(a.Folder(u), b.Folder(v), '/', a.Base(), b.Base());
  }

  // A number is not a number followed by "_thumb".
  lemma NumberedBases(a: ObjectName, b: ObjectName)
    requires !a.Reference? && !b.Reference? && a.Base() == b.Base()
    ensures a.i == b.i && a.Thumb? == b.Thumb?
  {
    hide Itoa;
    SuffixedNumbers(a.i, b.i, a.Thumb?, b.Thumb?);
  }

  lemma SuffixedNumbers(m: nat, n: nat, p: bool, q: bool)
    requires Itoa(m) + (if p then "_thumb" else "") == Itoa(n) + (if q then "_thumb" else "")
    ensures m == n && p == q
  {
    hide Itoa;
    var x, y := Itoa(m), Itoa(n);
    ItoaDigits(m);
    ItoaDigits(n);
    assert x[|x| - 1] in x && y[|y| - 1] in y && !IsDigit('b');
    var s, t := x + (if p then "_thumb" else ""), y + (if q then "_thumb" else "");
    assert s[|s| - 1] == if p then 'b' else x[|x| - 1];
    assert t[|t| - 1] == if q then 'b' else y[|y| - 1];
    assert x == s[..|s| - (if p then 6 else 0)] && y == t[..|t| - (if q then 6 else 0)];
    ItoaInjective(m, n);
  }

  /** Within one job no two objects share a key, whatever the user id and the job id are. */
  lemma KeysOfOneJob(userID: string, jobID: string, a: ObjectName, b: ObjectName)
    requires a.OfJob(jobID) && b.OfJob(jobID) && IsExt(a.Ext()) && IsExt(b.Ext())
    ensures Key(userID, a) == Key(userID, b) <==> a == b
  {
    if Key(userID, a) == Key(userID, b) {
      BaseHasNoSlash(a);
      BaseHasNoSlash(b);
      KeyParts(userID, a, userID, b);
      NumberedBases(a, b);
    }
  }

  lemma SameRoot(u: string, kind: string, v: string, kind': string)
    requires Root(u, kind) == Root(v, kind') && '/' !in kind && '/' !in kind'
    ensures u == v && kind == kind'
  {
    CutAtLast("users/" + u, "users/" + v, '/', kind, kind');
    assert ("users/" + u)[6..] == u && ("users/" + v)[6..] == v;
  }

  // Only a slash in the user id makes a folder with a job or a run a folder of references.
  lemma DeepFolder(u: string, v: string, kind: string, id: string)
    requires '/' !in id && Root(u, "refs") == Root(v, kind) + "/" + id
    ensures '/' in u
  {
    CutAtLast("users/" + u, Root(v, kind), '/', "refs", id);
    var w := "users/" + u;
    assert u == w[6..];
    assert w[6 + |v|] == '/';
    assert u[|v|] == '/';
  }

  /** Across users, jobs, runs and kinds a key names one object, when ids hold no slash. */
  lemma KeysNeverCollide(u: string, a: ObjectName, v: string, b: ObjectName)
    requires '/' !in u && '/' !in v && a.Plain() && b.Plain() && IsExt(a.Ext()) && IsExt(b.Ext())
    ensures Key(u, a) == Key(v, b) <==> u == v && a == b
  {
    if Key(u, a) == Key(v, b) {
      BaseHasNoSlash(a);
      BaseHasNoSlash(b);
      KeyParts(u, a, v, b);
      SameFolder(u, a, v, b);
      if !a.Reference? {
        NumberedBases(a, b);
      }
    }
  }

  lemma SameFolder(u: string, a: ObjectName, v: string, b: ObjectName)
    requires '/' !in u && '/' !in v && a.Plain() && b.Plain() && a.Folder(u) == b.Folder(v)
    ensures u == v && a.Template? == b.Template? && a.Reference? == b.Reference?
    ensures a.Template? ==> a.run == b.run
    ensures a.Primary? || a.Thumb? ==> a.jobID == b.jobID
  {
    var kindA := if a.Template? then "templates" else "jobs";
    var kindB := if b.Template? then "templates" else "jobs";
    if a.Reference? && b.Reference? {
      SameRoot(u, "refs", v, "refs");
    } else if a.Reference? {
      DeepFolder(u, v, kindB, if b.Template? then b.run else b.jobID);
    } else if b.Reference? {
      DeepFolder(v, u, kindA, if a.Template? then a.run else a.jobID);
    } else {
      CutAtLast(Root(u, kindA), Root(v, kindB), '/',
                if a.Template? then a.run else a.jobID, if b.Template? then b.run else b.jobID);
      SameRoot(u, kindA, v, kindB);
    }
  }
}
