/**
 Keyset paging of the asset library (ListUserAssets in internal/userstorage/assets.go). The
 SQL query is modelled by its meaning: the user's rows of the asked kinds after the cursor,
 ordered by creation time and id, both descending, up to a limit. Ids compare code point by
 code point. Time formatting and parsing are parameters.
 */
module Assets {
  import opened GoStrings
  import opened Quota
  import opened StatRows

  // A place in the listing.
  datatype Position = Position(createdAt: int, id: string)

  function At(r: StoredRow): Position {
    Position(r.createdAt, r.id)
  }

  // p is listed before q.
  predicate Before(p: Position, q: Position) {
    p.createdAt > q.createdAt || (p.createdAt == q.createdAt && StringLess(q.id, p.id))
  }

  lemma BeforeIsTotal(p: Position, q: Position, r: Position)
    ensures !Before(p, p)
    ensures Before(p, q) || Before(q, p) <==> p != q
    ensures !(Before(p, q) && Before(q, p))
    ensures Before(p, q) && Before(q, r) ==> Before(p, r)
  {
    hide StringLess;
    StringLessTotal(p.id, p.id);
    StringLessTotal(p.id, q.id);
    if StringLess(q.id, p.id) && StringLess(r.id, q.id) {
      StringLessTransitive(r.id, q.id, p.id);
    }
  }

  datatype Query = Query(userID: string, kinds: seq<string>) {
    predicate Matches(r: StoredRow) {
      r.userID == userID && (kinds == [] || exists i :: 0 <= i < |kinds| && TrimSpace(kinds[i]) == r.kind)
    }
  }

  ghost predicate Descending(rows: seq<StoredRow>) {
    forall i, j :: 0 <= i < j < |rows| ==> Before(At(rows[i]), At(rows[j]))
  }

  // Where r goes in a listing.
  function Slot(rows: seq<StoredRow>, r: StoredRow): (i: nat)
    ensures i <= |rows|
    ensures i > 0 ==> !Before(At(r), At(rows[i - 1]))
    ensures forall k :: i <= k < |rows| ==> Before(At(r), At(rows[k]))
  {
    if rows == [] || !Before(At(r), At(rows[|rows| - 1])) then |rows| else Slot(rows[..|rows| - 1], r)
  }

  // All matching rows of the table, in listing order.
  function Listing(ledger: seq<StoredRow>, q: Query): seq<StoredRow> {
    if ledger == [] then []
    else
      var rows, r := Listing(ledger[..|ledger| - 1], q), ledger[|ledger| - 1];
      if q.Matches(r) then rows[..Slot(rows, r)] + [r] + rows[Slot(rows, r)..] else rows
  }

  lemma {:induction false} ListingMembers(ledger: seq<StoredRow>, q: Query)
    ensures forall r :: r in Listing(ledger, q) <==> r in ledger && q.Matches(r)
  {
    hide Query.Matches, Slot;
    if ledger != [] {
      var before, r := ledger[..|ledger| - 1], ledger[|ledger| - 1];
      ListingMembers(before, q);
      var rows := Listing(before, q);
      assert ledger == before + [r] && rows == rows[..Slot(rows, r)] + rows[Slot(rows, r)..];
    }
  }

  lemma {:induction false} SlotKeepsOrder(rows: seq<StoredRow>, r: StoredRow)
    requires Descending(rows) && forall i :: 0 <= i < |rows| ==> rows[i].id != r.id
    ensures Descending(rows[..Slot(rows, r)] + [r] + rows[Slot(rows, r)..])
  {
    hide Before;
    var at := Slot(rows, r);
    forall i | 0 <= i < at
      ensures Before(At(rows[i]), At(r))
    {
      BeforeIsTotal(At(rows[at - 1]), At(r), At(r));
      BeforeIsTotal(At(rows[i]), At(rows[at - 1]), At(r));
    }
  }

  lemma {:induction false} ListingDescends(ledger: seq<StoredRow>, q: Query)
    requires UniqueIds(ledger)
    ensures Descending(Listing(ledger, q))
  {
    hide Before, Descending, Query.Matches, Slot;
    if ledger == [] {
      Nothing();
    } else {
      var before, r := ledger[..|ledger| - 1], ledger[|ledger| - 1];
      ListingDescends(before, q);
      ListingMembers(before, q);
      var rows := Listing(before, q);
      forall i | 0 <= i < |rows|
        ensures rows[i].id != r.id
      {
        assert rows[i] in before;
      }
      SlotKeepsOrder(rows, r);
    }
  }

  lemma Nothing()
    ensures Descending([])
  {
  }

  // The rows from the first one listed after p.
  function After(rows: seq<StoredRow>, p: Option<Position>): seq<StoredRow> {
    if p.None? || rows == [] || Before(p.value, At(rows[0])) then rows else After(rows[1..], p)
  }

  // SELECT ... ORDER BY created_at DESC, id DESC LIMIT n
  function Select(ledger: seq<StoredRow>, q: Query, p: Option<Position>, n: nat): seq<StoredRow> {
    var rows := After(Listing(ledger, q), p);
    if |rows| <= n then rows else rows[..n]
  }

  lemma {:induction false} AfterSplits(rows: seq<StoredRow>, p: Option<Position>)
    requires Descending(rows)
    ensures Descending(After(rows, p))
    ensures forall r :: r in After(rows, p) <==> r in rows && (p.Some? ==> Before(p.value, At(r)))
  {
    hide Before;
    if p.Some? && rows != [] {
      var first := rows[0];
      assert rows == [first] + rows[1..];
      if Before(p.value, At(first)) {
        forall r | r in rows
          ensures Before(p.value, At(r))
        {
          BeforeIsTotal(p.value, At(first), At(r));
        }
      } else {
        AfterSplits(rows[1..], p);
      }
    }
  }

  // Time formatting and parsing, as RFC 3339 with nanoseconds in UTC.
  datatype Clock = Clock(format: int -> string, parse: string -> Option<int>) {
    // A printed time reads back, holds no bar, and is trimmed.
    ghost predicate RoundTrips() {
      forall t :: parse(format(t)) == Some(t) && '|' !in format(t) && format(t) != "" && Trimmed(format(t))
    }
  }

  function CursorText(clock: Clock, p: Position): string {
    clock.format(p.createdAt) + ['|'] + p.id
  }

  // An unreadable cursor asks for the first page.
  function ReadCursor(clock: Clock, cursor: string): Option<Position> {
    var c := TrimSpace(cursor);
    IndexIsFirst(c, '|');
    var bar := Index(c, '|');
    if c == "" || bar < 0 then None
    else
      var t := clock.parse(c[..bar]);
      if t.None? then None else Some(Position(t.value, c[bar + 1..]))
  }

  lemma CursorOf(clock: Clock, p: Position)
    requires clock.RoundTrips()
    ensures Trimmed(CursorText(clock, p)) <==> p.id == "" || !IsSpace(p.id[|p.id| - 1])
  {
    hide IsSpace;
    var t, c := clock.format(p.createdAt), CursorText(clock, p);
    assert c[0] == t[0];
    assert c[|c| - 1] == if p.id == "" then '|' else p.id[|p.id| - 1];
    BarIsNoSpace();
  }

  lemma BarIsNoSpace()
    ensures !IsSpace('|')
  {
  }

  /** A cursor's text reads back as its position exactly when the id does not end in white space. */
  lemma CursorRoundTrip(clock: Clock, p: Position)
    requires clock.RoundTrips()
    ensures ReadCursor(clock, CursorText(clock, p)) == Some(p) <==> p.id == "" || !IsSpace(p.id[|p.id| - 1])
  {
    hide IsSpace, TrimSpace, Trimmed;
    var t, c := clock.format(p.createdAt), CursorText(clock, p);
    CursorOf(clock, p);
    TrimSpaceFixed(c);
    IndexAfterPrefix(t, '|', p.id);
    if TrimSpace(c) == c {
      assert c[..|t|] == t && c[|t| + 1..] == p.id;
    } else {
      ReadsShorter(clock, c, p);
    }
  }

  // What a proper prefix of a cursor shows after its first bar is shorter than the id.
  lemma ShorterTail(t: string, id: string, s: string)
    requires '|' !in t && s <= t + ['|'] + id && |s| < |t| + 1 + |id|
    ensures Index(s, '|') >= 0 ==> |s| - Index(s, '|') - 1 < |id|
  {
    var c := t + ['|'] + id;
    assert forall k :: 0 <= k < |t| ==> c[k] == t[k] && t[k] in t;
    IndexIsFirst(s, '|');
  }

  // A cursor that trimming changes reads back as some other text.
  lemma ReadsShorter(clock: Clock, c: string, p: Position)
    requires clock.RoundTrips() && c == CursorText(clock, p) && TrimSpace(c) != c
    ensures ReadCursor(clock, c).Some? ==> |ReadCursor(clock, c).value.id| < |p.id|
  {
    var s, t := TrimSpace(c), clock.format(p.createdAt);
    assert TrimLeft(c) == c by { assert c[0] == t[0]; }
    TrimRightShape(c);
    ShorterTail(t, p.id, s);
    IndexIsFirst(s, '|');
  }

  function PageSize(limit: int): nat {
    if limit <= 0 then 30 else if limit > 100 then 100 else limit
  }

  // One page and the cursor of the next one ("" after the last).
  function PageOf(clock: Clock, ledger: seq<StoredRow>, q: Query, limit: int, cursor: string)
    : (seq<StoredRow>, string)
  {
    var size := PageSize(limit);
    var out := Select(ledger, q, ReadCursor(clock, cursor), size + 1);
    if |out| > size then (out[..size], CursorText(clock, At(out[size - 1]))) else (out, "")
  }

  // The beginning of ListUserAssets.
  method ParseCursor(clock: Clock, cursor: string) returns (after: Option<Position>)
    ensures after == ReadCursor(clock, cursor)
  {
    hide TrimSpace, Index;
    after := None;
    var c := TrimSpace(cursor);
    if c != "" {
      IndexIsFirst(c, '|');
      var bar := Index(c, '|');
      if bar >= 0 {
        var t := clock.parse(c[..bar]);
        if t.Some? {
          after := Some(Position(t.value, c[bar + 1..]));
        }
      }
    }
  }

  method ListUserAssets(db: QuotaDb?, userID: string, kinds: seq<string>, limit: int, cursor: string, clock: Clock)
    returns (ok: bool, page: seq<StoredRow>, next: string)
    ensures ok <==> db != null && userID != ""
    ensures ok ==> (page, next) == PageOf(clock, db.ledger, Query(userID, kinds), limit, cursor)
  {
    hide TrimSpace, Listing, After, ReadCursor, Select, CursorText;
    if db == null || userID == "" {
      return false, [], "";
    }
    var size := limit;
    if size <= 0 {
      size := 30;
    }
    if size > 100 {
      size := 100;
    }
    var after := ParseCursor(clock, cursor);
    var rows := Select(db.ledger, Query(userID, kinds), after, size + 1);
    page := [];
    for i := 0 to |rows|
      invariant page == rows[..i]
    {
      page := page + [rows[i]];
    }
    assert rows[..|rows|] == rows;
    next := "";
    if |page| > size {
      var last := page[size - 1];
      next := CursorText(clock, At(last));
      page := page[..size];
    }
    ok := true;
  }

  // What one page holds, in terms of rows only.
  ghost predicate Serves(page: seq<StoredRow>, more: bool, ledger: seq<StoredRow>, q: Query, p: Option<Position>) {
    && Descending(page)
    && (forall r :: r in page ==> r in ledger && q.Matches(r) && (p.Some? ==> Before(p.value, At(r))))
    && (more ==> page != [])
    && forall r :: r in ledger && q.Matches(r) && (p.Some? ==> Before(p.value, At(r))) && r !in page ==>
         more && Before(At(page[|page| - 1]), At(r))
  }

  lemma CutServes(rows: seq<StoredRow>, size: nat, ledger: seq<StoredRow>, q: Query, p: Option<Position>)
    requires size > 0 && Descending(rows)
    requires forall r :: r in rows <==> r in ledger && q.Matches(r) && (p.Some? ==> Before(p.value, At(r)))
    ensures Serves(if |rows| <= size then rows else rows[..size], |rows| > size, ledger, q, p)
  {
    hide Query.Matches, Before;
  }

  lemma PageServes(clock: Clock, ledger: seq<StoredRow>, q: Query, limit: int, cursor: string)
    requires UniqueIds(ledger) && clock.RoundTrips()
    ensures var (page, next) := PageOf(clock, ledger, q, limit, cursor);
            && Serves(page, next != "", ledger, q, ReadCursor(clock, cursor))
            && (next != "" ==> next == CursorText(clock, At(page[|page| - 1])))
  {
    hide *;
    var p, size := ReadCursor(clock, cursor), PageSize(limit);
    var rows := After(Listing(ledger, q), p);
    ListingDescends(ledger, q);
    ListingMembers(ledger, q);
    AfterSplits(Listing(ledger, q), p);
    PageIs(clock, ledger, q, limit, cursor);
    CutServes(rows, size, ledger, q, p);
    if |rows| > size {
      ServedSome(rows[..size], ledger, q, p);
      CursorIsText(clock, At(rows[size - 1]));
    }
  }

  lemma PageIs(clock: Clock, ledger: seq<StoredRow>, q: Query, limit: int, cursor: string)
    ensures var rows, size := After(Listing(ledger, q), ReadCursor(clock, cursor)), PageSize(limit);
            && size > 0
            && PageOf(clock, ledger, q, limit, cursor)
            == if |rows| > size then (rows[..size], CursorText(clock, At(rows[size - 1]))) else (rows, "")
  {
    hide After, Listing, ReadCursor, CursorText;
    var rows, size := After(Listing(ledger, q), ReadCursor(clock, cursor)), PageSize(limit);
    if |rows| > size {
      assert rows[..size + 1][..size] == rows[..size];
    }
  }

  lemma CursorIsText(clock: Clock, p: Position)
    ensures CursorText(clock, p) != ""
  {
  }

  lemma ServedSome(page: seq<StoredRow>, ledger: seq<StoredRow>, q: Query, p: Option<Position>)
    requires Serves(page, true, ledger, q, p)
    ensures page != []
  {
  }

  // A reader following cursors; rows may be appended to the table between two pages.
  datatype Step = Step(ledger: seq<StoredRow>, limit: int, cursor: string, page: seq<StoredRow>, next: string)

  // No stored id ends in white space: ids are trimmed or hexadecimal.
  ghost predicate ReadableIds(ledger: seq<StoredRow>) {
    forall r :: r in ledger ==> r.id == "" || !IsSpace(r.id[|r.id| - 1])
  }

  ghost predicate IsWalk(clock: Clock, q: Query, walk: seq<Step>) {
    && walk != [] && walk[0].cursor == ""
    && (forall i :: 0 <= i < |walk| ==>
          && UniqueIds(walk[i].ledger) && ReadableIds(walk[i].ledger)
          && (walk[i].page, walk[i].next) == PageOf(clock, walk[i].ledger, q, walk[i].limit, walk[i].cursor))
    && forall i :: 0 <= i < |walk| - 1 ==> Follows(walk[i], walk[i + 1])
  }

  // The next page is asked for with the cursor; rows have only been appended.
  ghost predicate Follows(a: Step, b: Step) {
    b.cursor == a.next && a.next != "" && a.ledger <= b.ledger
  }

  // Everything read on the first n pages.
  function Visited(walk: seq<Step>, n: nat): seq<StoredRow>
    requires n <= |walk|
  {
    if n == 0 then [] else Visited(walk, n - 1) + walk[n - 1].page
  }

  // Where the reader stands: what has been read descends and matches, and the table's old rows
  // that have not been read come after it.
  ghost predicate Standing(rows: seq<StoredRow>, more: bool, first: seq<StoredRow>, ledger: seq<StoredRow>, q: Query) {
    && Descending(rows)
    && (forall r :: r in rows ==> r in ledger && q.Matches(r))
    && (more ==> rows != [])
    && forall r :: r in first && q.Matches(r) && r !in rows ==> more && Before(At(rows[|rows| - 1]), At(r))
  }

  lemma StandOn(rows: seq<StoredRow>, page: seq<StoredRow>, more: bool, first: seq<StoredRow>,
                ledger: seq<StoredRow>, ledger': seq<StoredRow>, q: Query)
    requires Standing(rows, true, first, ledger, q) && ledger <= ledger' && forall r :: r in first ==> r in ledger
    requires Serves(page, more, ledger', q, Some(At(rows[|rows| - 1])))
    ensures Standing(rows + page, more, first, ledger', q)
  {
    hide Query.Matches, Before;
    var last := At(rows[|rows| - 1]);
    forall i, j | 0 <= i < |rows| && 0 <= j < |page|
      ensures Before(At(rows[i]), At(page[j]))
    {
      assert page[j] in page;
      BeforeIsTotal(At(rows[i]), last, At(page[j]));
    }
    assert forall r :: r in ledger ==> r in ledger' by {
      forall r | r in ledger
        ensures r in ledger'
      {
        var i :| 0 <= i < |ledger| && ledger[i] == r;
        assert ledger'[i] == r;
      }
    }
  }

  lemma {:induction false} StillThere(walk: seq<Step>, clock: Clock, q: Query, n: nat)
    requires IsWalk(clock, q, walk) && n < |walk|
    ensures forall r :: r in walk[0].ledger ==> r in walk[n].ledger
  {
    hide PageOf, UniqueIds, ReadableIds;
    if n > 0 {
      StillThere(walk, clock, q, n - 1);
      assert Follows(walk[n - 1], walk[n - 1 + 1]);
      forall r | r in walk[n - 1].ledger
        ensures r in walk[n].ledger
      {
        var i :| 0 <= i < |walk[n - 1].ledger| && walk[n - 1].ledger[i] == r;
        assert walk[n].ledger[i] == r;
      }
    }
  }

  // The reader stands after n pages, and the cursor is that of the last row read.
  ghost predicate StandsAfter(clock: Clock, q: Query, walk: seq<Step>, n: nat)
    requires 0 < n <= |walk|
  {
    var rows, step := Visited(walk, n), walk[n - 1];
    && Standing(rows, step.next != "", walk[0].ledger, step.ledger, q)
    && (step.next != "" ==> rows != [] && step.next == CursorText(clock, At(rows[|rows| - 1])))
    && |rows| >= (if step.next != "" then n else n - 1)
  }

  lemma StartStands(clock: Clock, q: Query, walk: seq<Step>)
    requires IsWalk(clock, q, walk) && clock.RoundTrips()
    ensures StandsAfter(clock, q, walk, 1)
  {
    hide PageOf, Query.Matches, UniqueIds, Standing, Serves, ReadCursor, CursorText, Before, IsSpace;
    var step := walk[0];
    PageServes(clock, step.ledger, q, step.limit, step.cursor);
    PageNotEmpty(step.page, step.next != "", step.ledger, q, ReadCursor(clock, step.cursor));
    assert Visited(walk, 0) + step.page == step.page;
    NoCursor(clock);
    FirstPage(step.page, step.next != "", step.ledger, q);
  }

  lemma {:induction false} StepStands(clock: Clock, q: Query, walk: seq<Step>, n: nat)
    requires IsWalk(clock, q, walk) && clock.RoundTrips() && 0 < n < |walk| && StandsAfter(clock, q, walk, n)
    ensures StandsAfter(clock, q, walk, n + 1)
  {
    hide PageOf, Query.Matches, UniqueIds, Standing, Serves, ReadCursor, CursorText, Before, IsSpace;
    var step, rows := walk[n], Visited(walk, n);
    var last := rows[|rows| - 1];
    assert Follows(walk[n - 1], walk[n - 1 + 1]);
    PageServes(clock, step.ledger, q, step.limit, step.cursor);
    assert ReadCursor(clock, step.cursor) == Some(At(last)) by {
      LastIsStored(rows, walk[0].ledger, walk[n - 1].ledger, q);
      CursorRoundTrip(clock, At(last));
    }
    PageNotEmpty(step.page, step.next != "", step.ledger, q, ReadCursor(clock, step.cursor));
    assert forall r :: r in walk[0].ledger ==> r in walk[n - 1].ledger by { StillThere(walk, clock, q, n - 1); }
    StandOn(rows, step.page, step.next != "", walk[0].ledger, walk[n - 1].ledger, step.ledger, q);
  }

  lemma {:induction false} WalkStands(clock: Clock, q: Query, walk: seq<Step>, n: nat)
    requires IsWalk(clock, q, walk) && clock.RoundTrips() && 0 < n <= |walk|
    ensures StandsAfter(clock, q, walk, n)
  {
    hide IsWalk, StandsAfter;
    if n == 1 {
      StartStands(clock, q, walk);
    } else {
      WalkStands(clock, q, walk, n - 1);
      StepStands(clock, q, walk, n - 1);
    }
  }

  lemma NoCursor(clock: Clock)
    ensures ReadCursor(clock, "") == None
  {
  }

  lemma PageNotEmpty(page: seq<StoredRow>, more: bool, ledger: seq<StoredRow>, q: Query, p: Option<Position>)
    requires Serves(page, more, ledger, q, p)
    ensures more ==> page != []
  {
  }

  lemma FirstPage(page: seq<StoredRow>, more: bool, ledger: seq<StoredRow>, q: Query)
    requires Serves(page, more, ledger, q, None)
    ensures Standing(page, more, ledger, ledger, q)
  {
    hide Query.Matches, Before;
  }

  lemma LastIsStored(rows: seq<StoredRow>, first: seq<StoredRow>, ledger: seq<StoredRow>, q: Query)
    requires Standing(rows, true, first, ledger, q)
    ensures rows != [] && rows[|rows| - 1] in ledger
  {
  }

  /**
   Following the cursors to the end reads every matching row of the table at the start, in
   descending order and hence once each, whatever is appended meanwhile and although many rows
   share one creation time; and every row read is a matching row of the table.
   */
  lemma {:induction false} WalkIsComplete(clock: Clock, q: Query, walk: seq<Step>)
    requires IsWalk(clock, q, walk) && clock.RoundTrips() && walk[|walk| - 1].next == ""
    ensures var rows := Visited(walk, |walk|);
            && Descending(rows)
            && (forall r :: r in walk[0].ledger && q.Matches(r) ==> r in rows)
            && (forall r :: r in rows ==> r in walk[|walk| - 1].ledger && q.Matches(r))
  {
    hide PageOf, Descending, Query.Matches, Before;
    WalkStands(clock, q, walk, |walk|);
  }

  // A descending list is no longer than one that has all its rows, and equal if they have the same rows.
  lemma {:induction false} SubListing(rows: seq<StoredRow>, all: seq<StoredRow>)
    requires Descending(rows) && Descending(all) && forall r :: r in rows ==> r in all
    ensures |rows| <= |all|
    ensures (forall r :: r in all ==> r in rows) ==> rows == all
  {
    hide Before, Descending;
    if rows == [] {
      assert all != [] ==> all[0] in all;
    } else {
      assert rows[0] in all;
      Tail(rows);
      Tail(all);
      if rows[0] == all[0] {
        SubListing(rows[1..], all[1..]);
      } else {
        forall r | r in rows
          ensures r in all[1..]
        {
          NotFirst(rows, all, r);
        }
        SubListing(rows, all[1..]);
        FirstIsMissing(rows, all);
      }
    }
  }

  lemma Tail(rows: seq<StoredRow>)
    requires rows != [] && Descending(rows)
    ensures rows == [rows[0]] + rows[1..] && Descending(rows[1..])
    ensures forall r :: r in rows[1..] <==> r in rows && r != rows[0]
  {
    hide Before;
    forall k | 0 < k < |rows|
      ensures rows[k] != rows[0]
    {
      BeforeIsTotal(At(rows[0]), At(rows[k]), At(rows[k]));
    }
  }

  lemma NotFirst(rows: seq<StoredRow>, all: seq<StoredRow>, r: StoredRow)
    requires Descending(rows) && Descending(all) && rows != [] && r in rows && r in all && rows[0] in all
    requires rows[0] != all[0]
    ensures r != all[0]
  {
    hide Before;
    BeforeIsTotal(At(all[0]), At(rows[0]), At(r));
  }

  lemma FirstIsMissing(rows: seq<StoredRow>, all: seq<StoredRow>)
    requires Descending(rows) && Descending(all) && rows != [] && rows[0] in all && rows[0] != all[0]
    requires forall r :: r in rows ==> r in all
    ensures all[0] !in rows
  {
    if all[0] in rows {
      NotFirst(rows, all, all[0]);
    }
  }

  /** The walk ends: it has at most one page more than there are matching rows in the end. */
  lemma WalkTerminates(clock: Clock, q: Query, walk: seq<Step>)
    requires IsWalk(clock, q, walk) && clock.RoundTrips()
    ensures |walk| <= |Listing(walk[|walk| - 1].ledger, q)| + 1
  {
    hide PageOf, Descending, Query.Matches, Before;
    var last := walk[|walk| - 1].ledger;
    WalkStands(clock, q, walk, |walk|);
    ListingDescends(last, q);
    ListingMembers(last, q);
    SubListing(Visited(walk, |walk|), Listing(last, q));
  }

  /** When nothing is appended, the pages are the listing, cut up. */
  lemma WalkIsExact(clock: Clock, q: Query, walk: seq<Step>)
    requires IsWalk(clock, q, walk) && clock.RoundTrips() && walk[|walk| - 1].next == ""
    requires walk[|walk| - 1].ledger == walk[0].ledger
    ensures Visited(walk, |walk|) == Listing(walk[0].ledger, q)
  {
    hide PageOf, Descending, Query.Matches, Before;
    WalkIsComplete(clock, q, walk);
    ListingDescends(walk[0].ledger, q);
    ListingMembers(walk[0].ledger, q);
    SubListing(Visited(walk, |walk|), Listing(walk[0].ledger, q));
  }
}
