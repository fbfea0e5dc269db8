/**
 Data URLs (the base64 form of section 3 of RFC 2397): the printer and the reader of
 internal/api/chatcompletions.go, and the reader of pkg/refimages/refimages.go.
 */
module DataUrls {
  import opened GoStrings
  import opened ObjectKeys

  // The URL of an image with base64 text.
  function DataURL(mime: string, payload: string): string {
    "data:" + OrPNG(mime) + ";base64," + payload
  }

  // s up to the first c, or all of it.
  function Before(s: string, c: char): string {
    IndexIsFirst(s, c);
    if Index(s, c) < 0 then s else s[..Index(s, c)]
  }

  // dataURIToRefImage: the mime type and the payload.
  function ReadDataURI(uri: string): Option<(string, string)> {
    if !HasPrefix(uri, "data:") then None
    else
      var rest := uri[5..];
      IndexIsFirst(rest, ',');
      var comma := Index(rest, ',');
      if comma < 0 then None
      else Some((OrPNG(TrimSpace(Before(rest[..comma], ';'))), rest[comma + 1..]))
  }

  // stripDataURL: the payload and the mime type.
  function StripDataURL(text: string, mimeIn: string): (string, string) {
    var s, mime := TrimSpace(text), TrimSpace(mimeIn);
    if !HasPrefix(s, "data:") then (s, mime)
    else
      IndexIsFirst(s, ',');
      var comma := Index(s, ',');
      if comma < 0 then ("", mime)
      else
        var header := TrimSuffix(TrimSpace(HeaderPart(s, comma)), ";base64");
        (TrimSpace(s[comma + 1..]), if header != "" && mime == "" then header else mime)
  }

  // What stands between "data:" and the comma.
  function HeaderPart(s: string, comma: nat): string
    requires comma < |s|
  {
    if comma < 5 then "" else s[5..comma]
  }

  lemma {:induction false} IndexOfConcat(a: string, c: char, b: string)
    ensures c in a ==> Index(a + b, c) == Index(a, c)
    ensures c !in a && c in b ==> Index(a + b, c) == |a| + Index(b, c)
    ensures c !in a && c !in b ==> Index(a + b, c) == -1
  {
    IndexIsFirst(a, c);
    IndexIsFirst(b, c);
    if a == "" {
      assert a + b == b;
    } else {
      assert (a + b)[0] == a[0] && (a + b)[1..] == a[1..] + b;
      assert a == [a[0]] + a[1..];
      IndexIsFirst(a[1..], c);
      IndexOfConcat(a[1..], c, b);
    }
  }

  // The URL without its scheme: the first comma is the printer's own unless the mime type has one.
  lemma Shape(mime: string, payload: string)
    requires mime != ""
    ensures DataURL(mime, payload) == "data:" + (mime + ";base64," + payload)
    ensures DataURL(mime, payload)[5..] == mime + ";base64," + payload
    ensures Index(mime + ";base64," + payload, ',') == if ',' in mime then Index(mime, ',') else |mime| + 7
  {
    var tail := ";base64," + payload;
    assert mime + ";base64," + payload == mime + tail;
    assert ";base64," == ";base64" + [','];
    IndexAfterPrefix(";base64", ',', payload);
    assert tail == ";base64" + [','] + payload && tail[7] == ',';
    IndexOfConcat(mime, ',', tail);
  }

  lemma BeforeMark(mime: string, rest: string)
    requires rest != "" && rest[0] == ';'
    ensures Before(mime + rest, ';') == Before(mime, ';')
    ensures ';' !in Before(mime, ';') && Before(mime, ';') <= mime
  {
    IndexIsFirst(mime, ';');
    IndexOfConcat(mime, ';', rest);
    IndexIsFirst(rest, ';');
    assert Index(rest, ';') == 0;
    IndexIsFirst(mime + rest, ';');
  }

  lemma TrimmedHasNoNew(s: string, c: char)
    requires c !in s
    ensures c !in TrimSpace(s)
  {
    TrimLeftShape(s);
    TrimRightShape(TrimLeft(s));
  }

  /**
   The first reader recovers the mime type and the payload exactly when the mime type is
   trimmed and holds neither a semicolon nor a comma; the payload may be anything.
   */
  lemma ReadDataURIExactly(mime: string, payload: string)
    requires mime != ""
    ensures ReadDataURI(DataURL(mime, payload)) == Some((mime, payload))
       <==> Trimmed(mime) && ';' !in mime && ',' !in mime
  {
    hide Trimmed, TrimSpace, DataURL, Index, OrPNG;
    Shape(mime, payload);
    var rest := mime + ";base64," + payload;
    IndexIsFirst(rest, ',');
    IndexIsFirst(mime, ',');
    var comma := Index(rest, ',');
    if ',' in mime {
      assert |rest[comma + 1..]| > |payload|;
    } else {
      assert rest[..comma] == mime + ";base64" && rest[comma + 1..] == payload;
      ReadMime(mime);
    }
  }

  // How the first reader finds the mime type in the part before the comma.
  lemma ReadMime(mime: string)
    requires mime != ""
    ensures OrPNG(TrimSpace(Before(mime + ";base64", ';'))) == mime <==> Trimmed(mime) && ';' !in mime
  {
    hide Trimmed, TrimSpace;
    BeforeMark(mime, ";base64");
    IndexIsFirst(mime, ';');
    TrimmedHasNoNew(Before(mime, ';'), ';');
    TrimSpaceFixed(mime);
    if ';' !in mime && TrimSpace(mime) == "" {
      BlankIsNotPNG(mime);
    }
  }

  lemma BlankIsNotPNG(s: string)
    requires TrimSpace(s) == ""
    ensures s != "image/png"
  {
    assert Trimmed("image/png");
    TrimSpaceFixed("image/png");
  }

  lemma {:induction false} TrimLeftOf(a: string, b: string)
    requires b != "" && !IsSpace(b[0])
    ensures TrimLeft(a + b) == TrimLeft(a) + b
  {
    hide IsSpace;
    if a == "" {
      assert a + b == b && TrimLeft(a) + b == b;
    } else {
      assert (a + b)[0] == a[0] && (a + b)[1..] == a[1..] + b;
      if IsSpace(a[0]) {
        TrimLeftOf(a[1..], b);
      }
    }
  }

  lemma {:induction false} TrimRightOf(a: string, b: string)
    requires a != "" && !IsSpace(a[|a| - 1])
    ensures TrimRight(a + b) == a + TrimRight(b)
  {
    hide IsSpace;
    if b == "" {
      assert a + b == a;
    } else {
      assert (a + b)[|a + b| - 1] == b[|b| - 1] && (a + b)[..|a + b| - 1] == a + b[..|b| - 1];
      if IsSpace(b[|b| - 1]) {
        TrimRightOf(a, b[..|b| - 1]);
      }
    }
  }

  // Trimming the whole URL can only touch the end of the payload.
  lemma TrimmedURL(mime: string, payload: string)
    requires mime != ""
    ensures TrimSpace(DataURL(mime, payload)) == DataURL(mime, TrimRight(payload))
  {
    hide IsSpace;
    var head := "data:" + mime + ";base64,";
    assert head[0] == 'd' && head[|head| - 1] == ',';
    MarksAreNoSpace();
    assert TrimLeft(head + payload) == head + payload;
    TrimRightOf(head, payload);
  }

  lemma MarksAreNoSpace()
    ensures !IsSpace('d') && !IsSpace(',') && !IsSpace(';') && !IsSpace('4')
  {
  }

  // How the second reader finds the mime type in the header.
  lemma {:induction false} StripMime(mime: string, header: string)
    requires header == mime + ";base64"
    ensures TrimSuffix(TrimSpace(header), ";base64") == TrimLeft(mime)
  {
    hide IsSpace;
    MarksAreNoSpace();
    TrimLeftOf(mime, ";base64");
    var t := TrimLeft(mime) + ";base64";
    assert t[|t| - 1] == '4';
    assert t[|t| - 7..] == ";base64";
    assert TrimSpace(header) == t;
    assert t[..|t| - 7] == TrimLeft(mime);
  }

  // Trimming on the right first changes nothing.
  lemma {:induction false} SpacesLeftRight(s: string)
    ensures TrimSpace(TrimRight(s)) == TrimSpace(s)
  {
    hide IsSpace;
    if s != "" && IsSpace(s[|s| - 1]) {
      SpacesLeftRight(s[..|s| - 1]);
      DropLastSpace(s[..|s| - 1], s[|s| - 1]);
      assert s == s[..|s| - 1] + [s[|s| - 1]];
    }
  }

  lemma {:induction false} DropLastSpace(s: string, c: char)
    requires IsSpace(c)
    ensures TrimSpace(s + [c]) == TrimSpace(s)
  {
    hide IsSpace;
    if s == "" {
      assert s + [c] == [c] && [c][1..] == "";
    } else if IsSpace(s[0]) {
      assert (s + [c])[0] == s[0] && (s + [c])[1..] == s[1..] + [c];
      DropLastSpace(s[1..], c);
    } else {
      assert (s + [c])[0] == s[0] && (s + [c])[..|s|] == s;
      assert (s + [c])[|s|] == c;
    }
  }

  // What the second reader makes of a printed URL: it cuts it at the first comma.
  lemma {:induction false} StripCuts(mime: string, payload: string)
    requires mime != ""
    ensures var rest := mime + ";base64," + TrimRight(payload);
            var at := if ',' in mime then Index(mime, ',') else |mime| + 7;
            && 0 <= at < |rest|
            && StripDataURL(DataURL(mime, payload), "")
               == (TrimSpace(rest[at + 1..]), TrimSuffix(TrimSpace(rest[..at]), ";base64"))
  {
    hide IsSpace, TrimSpace, TrimSuffix, DataURL, TrimRight;
    var p := TrimRight(payload);
    TrimmedURL(mime, payload);
    Shape(mime, p);
    BlankMime();
    var s, rest := DataURL(mime, p), mime + ";base64," + p;
    assert s == "data:" + rest && HasPrefix(s, "data:");
    IndexOfConcat("data:", ',', rest);
    IndexIsFirst(rest, ',');
    IndexIsFirst(s, ',');
    IndexIsFirst(mime, ',');
    var at := Index(rest, ',');
    assert s[5..5 + at] == rest[..at] && s[5 + at + 1..] == rest[at + 1..];
  }

  lemma BlankMime()
    ensures TrimSpace("") == ""
  {
  }

  /**
   The second reader, told no mime type, recovers both exactly when the mime type holds no comma
   and does not start with white space, and the payload is trimmed.
   */
  lemma StripDataURLExactly(mime: string, payload: string)
    requires mime != ""
    ensures StripDataURL(DataURL(mime, payload), "") == (payload, mime)
       <==> ',' !in mime && !IsSpace(mime[0]) && Trimmed(payload)
  {
    hide IsSpace, Trimmed, TrimSpace, TrimRight, TrimSuffix, DataURL, StripDataURL;
    StripCuts(mime, payload);
    if ',' in mime {
      IndexIsFirst(mime, ',');
      CommaInMime(mime, payload, Index(mime, ','));
    } else {
      var rest, p := mime + ";base64," + TrimRight(payload), TrimRight(payload);
      assert rest[..|mime| + 7] == mime + ";base64" && rest[|mime| + 7 + 1..] == p;
      StripMime(mime, mime + ";base64");
      SpacesLeftRight(payload);
      TrimSpaceFixed(payload);
      LeftTrimmed(mime);
    }
  }

  lemma LeftTrimmed(mime: string)
    requires mime != ""
    ensures TrimLeft(mime) == mime <==> !IsSpace(mime[0])
  {
    TrimLeftShape(mime);
  }

  // With a comma in the mime type the payload read back is longer than the payload, or differs in its ends.
  lemma CommaInMime(mime: string, payload: string, at: nat)
    requires at < |mime|
    ensures TrimSpace((mime + ";base64," + TrimRight(payload))[at + 1..]) != payload
  {
    hide IsSpace;
    var x, p := mime[at + 1..], TrimRight(payload);
    var text := x + (";base64," + p);
    assert (mime + ";base64," + p)[at + 1..] == text;
    TrimRightShape(payload);
    MarksAreNoSpace();
    TrimLeftOf(x, ";base64," + p);
    var head := TrimLeft(x) + ";base64,";
    assert TrimLeft(text) == head + p && head[|head| - 1] == ',';
    TrimRightOf(head, p);
    TrimmedAlready(payload);
    assert TrimSpace(text) == head + p;
    TrimSpaceTrims(text);
    TrimRightKeeps(head + p);
  }

  lemma TrimmedAlready(payload: string)
    ensures TrimRight(TrimRight(payload)) == TrimRight(payload)
  {
    TrimRightShape(payload);
  }

  lemma TrimRightKeeps(s: string)
    requires Trimmed(s)
    ensures TrimRight(s) == s
  {
  }

  /** Both readers recover every image whose mime type is plain and whose payload is trimmed. */
  lemma BothReadersRecover(mime: string, payload: string)
    requires mime != "" && Trimmed(mime) && ';' !in mime && ',' !in mime && Trimmed(payload)
    ensures ReadDataURI(DataURL(mime, payload)) == Some((mime, payload))
    ensures StripDataURL(DataURL(mime, payload), "") == (payload, mime)
  {
    hide ReadDataURI, StripDataURL, DataURL, IsSpace;
    ReadDataURIExactly(mime, payload);
    StripDataURLExactly(mime, payload);
  }

  datatype Input = Input(mimeType: string, b64JSON: string)

  datatype Item = Item(mimeType: string, b64: string)

  const MAX_REFS := 6
  const MAX_DECODED_BYTES := 4 * 1024 * 1024

  function ItemOf(row: Input): Item {
    Item(TrimSpace(StripDataURL(row.b64JSON, row.mimeType).1), StripDataURL(row.b64JSON, row.mimeType).0)
  }

  predicate Supported(mime: string) {
    var m := ToLower(mime);
    mime == "" || m == "image/png" || m == "image/jpeg" || m == "image/webp" || m == "image/gif"
  }

  // size(text): how many bytes the base64 text decodes to, if it decodes.
  predicate Accepted(row: Input, size: string -> Option<nat>) {
    var item := ItemOf(row);
    && item.b64 != "" && size(item.b64).Some? && size(item.b64).value <= MAX_DECODED_BYTES
    && Supported(item.mimeType)
  }

  // All inputs are accepted, in order, or none is.
  method Parse(rows: seq<Input>, size: string -> Option<nat>) returns (ok: bool, items: seq<Item>)
    ensures ok <==> |rows| <= MAX_REFS && forall i :: 0 <= i < |rows| ==> Accepted(rows[i], size)
    ensures ok ==> |items| == |rows| && forall i :: 0 <= i < |rows| ==> items[i] == ItemOf(rows[i])
    ensures !ok ==> items == []
  {
    hide StripDataURL, TrimSpace, Supported;
    items := [];
    if |rows| > MAX_REFS {
      return false, [];
    }
    for i := 0 to |rows|
      invariant |items| == i
      invariant forall k :: 0 <= k < i ==> Accepted(rows[k], size) && items[k] == ItemOf(rows[k])
    {
      var (b64, mt) := StripDataURL(rows[i].b64JSON, rows[i].mimeType);
      var decoded := size(b64);
      mt := TrimSpace(mt);
      if b64 == "" || decoded.None? || decoded.value > MAX_DECODED_BYTES || !Supported(mt) {
        assert !Accepted(rows[i], size);
        return false, [];
      }
      items := items + [Item(mt, b64)];
    }
    ok := true;
  }

  /** An image printed into a chat answer comes back as itself when the answer is used as a reference. */
  lemma {:induction false} PrintedImageIsAccepted(mime: string, payload: string, size: string -> Option<nat>)
    requires mime != "" && Trimmed(mime) && ';' !in mime && ',' !in mime && Supported(mime)
    requires payload != "" && Trimmed(payload) && !HasPrefix(payload, "data:")
    requires size(payload).Some? && size(payload).value <= MAX_DECODED_BYTES
    ensures ReadDataURI(DataURL(mime, payload)).Some?
    ensures var (m, p) := ReadDataURI(DataURL(mime, payload)).value;
            ItemOf(Input(m, p)) == Item(mime, payload) && Accepted(Input(m, p), size)
    ensures ItemOf(Input("", DataURL(mime, payload))) == Item(mime, payload)
    ensures Accepted(Input("", DataURL(mime, payload)), size)
  {
    hide ReadDataURI, DataURL, IsSpace, Supported, TrimSpace, Trimmed;
    BothReadersRecover(mime, payload);
    TrimSpaceFixed(mime);
    TrimSpaceFixed(payload);
  }
}
