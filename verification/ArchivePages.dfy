/** Anchored keyset pagination of the session archive.

    Each request sorts its own snapshot of the sessions newest first, keeps those at or below the
    anchor that the first page fixed, keeps those past the cursor, and returns fifty. Between two
    requests the table may change in any way; the lemmas say what a reader who follows the cursors
    still gets. */
module ArchivePages {
  import opened Options

  const PAGE_SIZE := 50
  const MAX_FILTER_KEY := 2048
  const MAX_ID := 512
  const MAX_SAFE_INTEGER := 0x1F_FFFF_FFFF_FFFF

  type Byte = b: nat | b < 256

  /** Session ids, as their UTF-8 bytes. */
  type Id = seq<Byte>

  datatype Key = Key(createdAt: nat, id: Id)

  /** A stored session as the archive reads it. `text` is the lower-cased searchable text. */
  datatype Candidate = Candidate(id: Id, createdAt: nat, archived: bool, archivePending: bool, status: string,
                                 project: string, location: string, agent: string, text: string)
  {
    function At(): Key { Key(createdAt, id) }
  }

  /** `filterKey` is the text that names all filters; `q` the trimmed, lower-cased search text.
      An empty project, location, agent or q filters nothing. */
  datatype Query = Query(archive: string, lifecycle: string, project: string, location: string, agent: string,
                         q: string, filterKey: string)

  datatype Cursor = Cursor(filterKey: string, anchor: Key, after: Key)

  datatype Error = InvalidArchiveFilter | InvalidLifecycleFilter | InvalidCursor | CursorOfOtherFilters

  datatype Page = Page(sessions: seq<Candidate>, nextCursor: Option<Cursor>, hasMore: bool)

  datatype Response = Ok(page: Page) | Refused(error: Error)

  // ----- the archive order -----

  /** Byte order of two ids. */
  predicate IdBefore(a: Id, b: Id) {
    b != [] && (a == [] || a[0] < b[0] || (a[0] == b[0] && IdBefore(a[1..], b[1..])))
  }

  lemma {:induction false} IdOrderTotal(a: Id, b: Id)
    ensures !(IdBefore(a, b) && IdBefore(b, a))
    ensures !IdBefore(a, b) && !IdBefore(b, a) <==> a == b
  {
    if a != [] && b != [] && a[0] == b[0] {
      IdOrderTotal(a[1..], b[1..]);
      assert a == [a[0]] + a[1..] && b == [b[0]] + b[1..];
    }
  }

  lemma {:induction false} IdOrderTransitive(a: Id, b: Id, c: Id)
    requires IdBefore(a, b) && IdBefore(b, c)
    ensures IdBefore(a, c)
  {
    if a != [] && a[0] == b[0] == c[0] {
      IdOrderTransitive(a[1..], b[1..], c[1..]);
    }
  }

  /** Newest first, then by id. */
  predicate Before(a: Key, b: Key) {
    a.createdAt > b.createdAt || (a.createdAt == b.createdAt && IdBefore(a.id, b.id))
  }

  lemma OrderTotal(a: Key, b: Key)
    ensures !(Before(a, b) && Before(b, a))
    ensures !Before(a, b) && !Before(b, a) <==> a == b
  {
    IdOrderTotal(a.id, b.id);
  }

  lemma OrderTransitive(a: Key, b: Key, c: Key)
    requires Before(a, b) && Before(b, c)
    ensures Before(a, c)
  {
    if a.createdAt == b.createdAt == c.createdAt {
      IdOrderTransitive(a.id, b.id, c.id);
    }
  }

  predicate AtOrBelow(key: Key, anchor: Key) {
    key.createdAt < anchor.createdAt || (key.createdAt == anchor.createdAt && !IdBefore(key.id, anchor.id))
  }

  ghost predicate InOrder(s: seq<Candidate>) {
    forall i, j :: 0 <= i < j < |s| ==> Before(s[i].At(), s[j].At())
  }

  ghost predicate DistinctIds(s: seq<Candidate>) {
    forall i, j :: 0 <= i < j < |s| ==> s[i].id != s[j].id
  }

  function Insert(c: Candidate, s: seq<Candidate>): (r: seq<Candidate>)
    ensures forall x :: x in r <==> x == c || x in s
  {
    if s == [] then [c]
    else if Before(c.At(), s[0].At()) then [c] + s
    else [s[0]] + Insert(c, s[1..])
  }

  /** The sorted copy. */
  function Ordered(s: seq<Candidate>): (r: seq<Candidate>)
    ensures forall x :: x in r <==> x in s
  {
    if s == [] then [] else Insert(s[0], Ordered(s[1..]))
  }

  lemma {:induction false} InsertInOrder(c: Candidate, s: seq<Candidate>)
    requires InOrder(s) && forall x :: x in s ==> x.id != c.id
    ensures InOrder(Insert(c, s))
  {
    if s == [] {
    } else if Before(c.At(), s[0].At()) {
      forall i | 0 <= i < |s| ensures Before(c.At(), s[i].At()) {
        if i > 0 { OrderTransitive(c.At(), s[0].At(), s[i].At()); }
      }
    } else {
      OrderTotal(c.At(), s[0].At());
      InsertInOrder(c, s[1..]);
      var r := Insert(c, s[1..]);
      forall i | 0 <= i < |r| ensures Before(s[0].At(), r[i].At()) {
        assert r[i] in r;
        if r[i] != c {
          var j :| 0 <= j < |s[1..]| && s[1..][j] == r[i];
          assert s[j + 1] == r[i];
        }
      }
    }
  }

  lemma {:induction false} OrderedInOrder(s: seq<Candidate>)
    requires DistinctIds(s)
    ensures InOrder(Ordered(s))
  {
    if s != [] {
      OrderedInOrder(s[1..]);
      forall x | x in Ordered(s[1..]) ensures x.id != s[0].id {
        var j :| 0 <= j < |s[1..]| && s[1..][j] == x;
        assert s[j + 1] == x;
      }
      InsertInOrder(s[0], Ordered(s[1..]));
    }
  }

  // ----- one page -----

  predicate Contains(text: string, part: string)
    decreases |text|
  {
    part <= text || (text != "" && Contains(text[1..], part))
  }

  /** The filters of a request; `hits` are the sessions whose transcript matched the search. */
  predicate Matches(c: Candidate, query: Query, hits: set<Id>) {
    && (query.archive == "archived" ==> c.archived || c.archivePending)
    && (query.archive == "unarchived" ==> !c.archived && !c.archivePending)
    && (query.lifecycle != "all" ==> c.status == query.lifecycle)
    && (query.project != "" ==> c.project == query.project)
    && (query.location != "" ==> c.location == query.location)
    && (query.agent != "" ==> c.agent == query.agent)
    && (query.q != "" ==> Contains(c.text, query.q) || c.id in hits)
  }

  predicate Past(key: Key, cursor: Option<Cursor>) {
    cursor.Some? ==> Before(cursor.value.after, key)
  }

  /** The sessions left for this request, in order. */
  function Remaining(ordered: seq<Candidate>, query: Query, hits: set<Id>, anchor: Key, cursor: Option<Cursor>): (r: seq<Candidate>)
    ensures forall c :: c in r <==> c in ordered && AtOrBelow(c.At(), anchor) && Matches(c, query, hits) && Past(c.At(), cursor)
  {
    if ordered == [] then []
    else
      var c := ordered[0];
      var keep := AtOrBelow(c.At(), anchor) && Matches(c, query, hits) && Past(c.At(), cursor);
      (if keep then [c] else []) + Remaining(ordered[1..], query, hits, anchor, cursor)
  }

  lemma {:induction false} RemainingInOrder(ordered: seq<Candidate>, query: Query, hits: set<Id>, anchor: Key, cursor: Option<Cursor>)
    requires InOrder(ordered)
    ensures InOrder(Remaining(ordered, query, hits, anchor, cursor))
  {
    if ordered != [] {
      var rest := Remaining(ordered[1..], query, hits, anchor, cursor);
      RemainingInOrder(ordered[1..], query, hits, anchor, cursor);
      forall i | 0 <= i < |rest| ensures Before(ordered[0].At(), rest[i].At()) {
        assert rest[i] in rest;
        var j :| 0 <= j < |ordered[1..]| && ordered[1..][j] == rest[i];
        assert ordered[j + 1] == rest[i];
      }
    }
  }

  predicate ValidKey(key: Key) {
    key.createdAt <= MAX_SAFE_INTEGER && 0 < |key.id| <= MAX_ID
  }

  /** What decoding accepts. Encoding loses nothing, so a cursor is its own wire form here. */
  predicate Decodes(cursor: Cursor) {
    |cursor.filterKey| <= MAX_FILTER_KEY && ValidKey(cursor.anchor) && ValidKey(cursor.after)
  }

  const STATUSES := ["queued", "starting", "running", "input_required", "idle", "completed", "failed", "stopped"]

  /** The request's error, if any, in the order the checks are made. */
  function Refusal(query: Query, cursor: Option<Cursor>): Option<Error> {
    if query.archive !in ["archived", "unarchived", "all"] then Some(InvalidArchiveFilter)
    else if query.lifecycle != "all" && query.lifecycle !in STATUSES then Some(InvalidLifecycleFilter)
    else if cursor.Some? && !Decodes(cursor.value) then Some(InvalidCursor)
    else if cursor.Some? && cursor.value.filterKey != query.filterKey then Some(CursorOfOtherFilters)
    else None
  }

  /** The anchor of a request: the cursor's, otherwise the newest session of the whole snapshot. */
  function Anchor(ordered: seq<Candidate>, cursor: Option<Cursor>): Option<Key> {
    if cursor.Some? then Some(cursor.value.anchor)
    else if ordered != [] then Some(ordered[0].At())
    else None
  }

  function ArchivePage(sessions: seq<Candidate>, hits: set<Id>, query: Query, cursor: Option<Cursor>): Response {
    var refusal := Refusal(query, cursor);
    if refusal.Some? then Refused(refusal.value)
    else
      var ordered := Ordered(sessions);
      var anchor := Anchor(ordered, cursor);
      if anchor.None? then Ok(Page([], None, false))
      else
        var left := Remaining(ordered, query, hits, anchor.value, cursor);
        var hasMore := |left| > PAGE_SIZE;
        var page := if hasMore then left[..PAGE_SIZE] else left;
        Ok(Page(page, if hasMore then Some(Cursor(query.filterKey, anchor.value, page[PAGE_SIZE - 1].At())) else None, hasMore))
  }

  // ----- following the cursors -----

  /** What the table held when one request was served. Ids are a primary key. */
  datatype Snapshot = Snapshot(sessions: seq<Candidate>, hits: set<Id>)

  /** A reader's requests so far: a first page, then each page's own next cursor, every request
      served from its own snapshot. */
  datatype Reading =
    | First(snapshot: Snapshot, page: Page)
    | Then(earlier: Reading, snapshot: Snapshot, page: Page)
  {
    function Cursor(): Option<Cursor> {
      if First? then None else earlier.page.nextCursor
    }

    ghost predicate Answers(query: Query) {
      && ArchivePage(snapshot.sessions, snapshot.hits, query, Cursor()) == Ok(page)
      && (Then? ==> earlier.page.nextCursor.Some? && earlier.Answers(query))
    }

    /** A session never changes the time it was created at. Everything else about it, and which
        sessions exist, may change from one snapshot to the next. */
    ghost predicate OneTable(born: Id -> nat) {
      && DistinctIds(snapshot.sessions)
      && (forall c :: c in snapshot.sessions ==> c.createdAt == born(c.id))
      && (Then? ==> earlier.OneTable(born))
    }

    function Delivered(): seq<Candidate> {
      if First? then page.sessions else earlier.Delivered() + page.sessions
    }

    /** The anchor the first page fixed; there is none when the first snapshot was empty. */
    function RunAnchor(): Option<Key> {
      if First? then Anchor(Ordered(snapshot.sessions), None) else earlier.RunAnchor()
    }

    /** The list the last page was cut from. */
    function Left(query: Query): seq<Candidate> {
      var ordered := Ordered(snapshot.sessions);
      var anchor := Anchor(ordered, Cursor());
      if anchor.None? then [] else Remaining(ordered, query, snapshot.hits, anchor.value, Cursor())
    }

    /** The session stayed in the table and kept matching, whatever else of it changed. */
    ghost predicate MatchesThroughout(query: Query, key: Key) {
      && (exists c :: c in snapshot.sessions && c.At() == key && Matches(c, query, snapshot.hits))
      && (Then? ==> earlier.MatchesThroughout(query, key))
    }

    /** Every request found the same table. */
    ghost predicate AtRest(still: Snapshot) {
      snapshot == still && (Then? ==> earlier.AtRest(still))
    }

    function Pages(): nat {
      if First? then 1 else earlier.Pages() + 1
    }
  }

  lemma PageShape(r: Reading, query: Query, born: Id -> nat)
    requires r.Answers(query) && r.OneTable(born)
    ensures InOrder(r.Left(query))
    ensures r.page.sessions <= r.Left(query)
    ensures r.page.nextCursor.None? ==> r.page.sessions == r.Left(query)
    ensures r.page.nextCursor.Some? ==>
              && |r.page.sessions| == PAGE_SIZE < |r.Left(query)|
              && Anchor(Ordered(r.snapshot.sessions), r.Cursor()) == Some(r.page.nextCursor.value.anchor)
              && r.page.nextCursor.value.after == r.page.sessions[PAGE_SIZE - 1].At()
              && r.page.nextCursor.value.filterKey == query.filterKey
  {
    var ordered := Ordered(r.snapshot.sessions);
    OrderedInOrder(r.snapshot.sessions);
    var anchor := Anchor(ordered, r.Cursor());
    if anchor.Some? {
      RemainingInOrder(ordered, query, r.snapshot.hits, anchor.value, r.Cursor());
    }
  }

  /** What holds of the list a page is cut from holds of the page. */
  lemma PageFromLeft(r: Reading, query: Query, born: Id -> nat)
    requires r.Answers(query) && r.OneTable(born)
    ensures InOrder(r.page.sessions)
    ensures forall c :: c in r.page.sessions ==>
              && c in r.snapshot.sessions && Matches(c, query, r.snapshot.hits) && Past(c.At(), r.Cursor())
              && Anchor(Ordered(r.snapshot.sessions), r.Cursor()).Some?
              && AtOrBelow(c.At(), Anchor(Ordered(r.snapshot.sessions), r.Cursor()).value)
  {
    PageShape(r, query, born);
    forall c | c in r.page.sessions ensures c in r.Left(query) {
    }
  }

  /** Every page of a reading uses the anchor the first page fixed. */
  lemma {:induction false} SameAnchor(r: Reading, query: Query, born: Id -> nat)
    requires r.Answers(query) && r.OneTable(born)
    ensures Anchor(Ordered(r.snapshot.sessions), r.Cursor()) == r.RunAnchor()
  {
    if r.Then? {
      PageShape(r.earlier, query, born);
      SameAnchor(r.earlier, query, born);
    }
  }

  /** Order and anchor: what is delivered over a whole reading strictly descends from the anchor,
      and the next cursor stands exactly at the last session delivered. */
  lemma {:induction false} DeliveredInOrder(r: Reading, query: Query, born: Id -> nat)
    requires r.Answers(query) && r.OneTable(born)
    ensures InOrder(r.Delivered())
    ensures forall c :: c in r.Delivered() ==> r.RunAnchor().Some? && AtOrBelow(c.At(), r.RunAnchor().value)
    ensures var next := r.page.nextCursor;
      next.Some? ==>
        && r.RunAnchor() == Some(next.value.anchor)
        && r.Delivered() != [] && next.value.after == r.Delivered()[|r.Delivered()| - 1].At()
  {
    PageFromLeft(r, query, born);
    SameAnchor(r, query, born);
    if r.page.nextCursor.Some? {
      NextAtLast(r, query, born);
    }
    if r.Then? {
      DeliveredInOrder(r.earlier, query, born);
      AppendPast(r.earlier.Delivered(), r.page.sessions, r.earlier.page.nextCursor.value.after);
    }
  }

  lemma NextAtLast(r: Reading, query: Query, born: Id -> nat)
    requires r.Answers(query) && r.OneTable(born) && r.page.nextCursor.Some?
    ensures r.RunAnchor() == Some(r.page.nextCursor.value.anchor)
    ensures r.Delivered() != [] && r.page.nextCursor.value.after == r.Delivered()[|r.Delivered()| - 1].At()
  {
    PageShape(r, query, born);
    SameAnchor(r, query, born);
  }

  lemma AppendPast(front: seq<Candidate>, next: seq<Candidate>, after: Key)
    requires InOrder(front) && InOrder(next)
    requires front != [] && front[|front| - 1].At() == after
    requires forall c :: c in next ==> Before(after, c.At())
    ensures InOrder(front + next)
  {
    forall i, j | 0 <= i < |front| && 0 <= j < |next| ensures Before(front[i].At(), next[j].At()) {
      assert next[j] in next;
      if i < |front| - 1 {
        OrderTransitive(front[i].At(), after, next[j].At());
      }
    }
  }

  /** Every delivered session was there and matched when its page was served. */
  lemma {:induction false} DeliveredMatched(r: Reading, query: Query, born: Id -> nat, c: Candidate) returns (at: Reading)
    requires r.Answers(query) && r.OneTable(born) && c in r.Delivered()
    ensures c in at.page.sessions && c in at.snapshot.sessions && Matches(c, query, at.snapshot.hits)
    ensures c.createdAt == born(c.id)
  {
    if c in r.page.sessions {
      PageFromLeft(r, query, born);
      at := r;
    } else {
      at := DeliveredMatched(r.earlier, query, born, c);
    }
  }

  /** No session is delivered twice, however it changed in between. */
  lemma NoSessionTwice(r: Reading, query: Query, born: Id -> nat)
    requires r.Answers(query) && r.OneTable(born)
    ensures DistinctIds(r.Delivered())
  {
    DeliveredInOrder(r, query, born);
    var all := r.Delivered();
    forall i, j | 0 <= i < j < |all| ensures all[i].id != all[j].id {
      var a := DeliveredMatched(r, query, born, all[i]);
      var b := DeliveredMatched(r, query, born, all[j]);
      OrderTotal(all[i].At(), all[j].At());
    }
  }

  /** A page delivers every matching session between its cursor and its next cursor. */
  lemma CoveredByPage(r: Reading, query: Query, born: Id -> nat, key: Key) returns (c: Candidate)
    requires r.Answers(query) && r.OneTable(born)
    requires r.RunAnchor().Some? && AtOrBelow(key, r.RunAnchor().value)
    requires exists c :: c in r.snapshot.sessions && c.At() == key && Matches(c, query, r.snapshot.hits)
    requires Past(key, r.Cursor())
    requires r.page.nextCursor.None? || !Past(key, r.page.nextCursor)
    ensures c in r.page.sessions && c.At() == key
  {
    SameAnchor(r, query, born);
    PageShape(r, query, born);
    c :| c in r.snapshot.sessions && c.At() == key && Matches(c, query, r.snapshot.hits);
    var left := r.Left(query);
    assert c in left;
    var k :| 0 <= k < |left| && left[k] == c;
    assert r.page.sessions[k] == c;
  }

  /** Nothing is missed: a session at or below the anchor that existed and matched throughout has
      been delivered once the cursor reached it, and in any case when there is no next cursor. */
  lemma {:induction false} NothingMissed(r: Reading, query: Query, born: Id -> nat, key: Key)
    requires r.Answers(query) && r.OneTable(born)
    requires r.RunAnchor().Some? && AtOrBelow(key, r.RunAnchor().value)
    requires r.MatchesThroughout(query, key)
    requires r.page.nextCursor.None? || !Past(key, r.page.nextCursor)
    ensures exists c :: c in r.Delivered() && c.At() == key
  {
    if r.Then? && !Past(key, r.Cursor()) {
      NothingMissed(r.earlier, query, born, key);
      var c :| c in r.earlier.Delivered() && c.At() == key;
      assert c in r.Delivered();
    } else {
      var c := CoveredByPage(r, query, born, key);
      assert c in r.Delivered();
    }
  }

  /** The main result: over a complete reading, under any edits, each such session comes exactly once. */
  lemma DeliveredExactlyOnce(r: Reading, query: Query, born: Id -> nat, key: Key)
    requires r.Answers(query) && r.OneTable(born) && r.page.nextCursor.None?
    requires r.RunAnchor().Some? && AtOrBelow(key, r.RunAnchor().value)
    requires r.MatchesThroughout(query, key)
    ensures exists i ::
              && 0 <= i < |r.Delivered()| && r.Delivered()[i].At() == key
              && forall j :: 0 <= j < |r.Delivered()| && r.Delivered()[j].id == key.id ==> j == i
  {
    NothingMissed(r, query, born, key);
    NoSessionTwice(r, query, born);
    var c :| c in r.Delivered() && c.At() == key;
    var i :| 0 <= i < |r.Delivered()| && r.Delivered()[i] == c;
  }

  // ----- a table at rest -----

  /** All matching sessions in archive order: what a single unbounded page would show. */
  function Listing(snapshot: Snapshot, query: Query): seq<Candidate> {
    var ordered := Ordered(snapshot.sessions);
    if ordered == [] then [] else Remaining(ordered, query, snapshot.hits, ordered[0].At(), None)
  }

  /** In a list in order, the elements past position `k - 1` are exactly those from `k` on. */
  lemma PastPosition(all: seq<Candidate>, k: nat, c: Candidate)
    requires InOrder(all) && 0 < k <= |all| && c in all
    ensures Before(all[k - 1].At(), c.At()) <==> c in all[k..]
  {
    var i :| 0 <= i < |all| && all[i] == c;
    OrderTotal(all[i].At(), all[k - 1].At());
    if i >= k {
      assert all[k..][i - k] == c;
    }
  }

  lemma {:induction false} RemainingPast(ordered: seq<Candidate>, query: Query, hits: set<Id>, anchor: Key, cursor: Cursor, k: nat)
    requires InOrder(ordered) && cursor.anchor == anchor
    requires var all := Remaining(ordered, query, hits, anchor, None);
      0 < k <= |all| && cursor.after == all[k - 1].At()
    ensures Remaining(ordered, query, hits, anchor, Some(cursor)) == Remaining(ordered, query, hits, anchor, None)[k..]
  {
    var all, rest := Remaining(ordered, query, hits, anchor, None), Remaining(ordered, query, hits, anchor, Some(cursor));
    RemainingInOrder(ordered, query, hits, anchor, None);
    RemainingInOrder(ordered, query, hits, anchor, Some(cursor));
    forall c ensures c in rest <==> c in all[k..] {
      if c in all {
        PastPosition(all, k, c);
      }
      assert c in rest ==> c in all;
      assert c in all[k..] ==> c in all;
    }
    SameElementsSameOrder(rest, all[k..]);
  }

  /** Two lists in archive order with the same sessions are the same list. */
  lemma {:induction false} SameElementsSameOrder(a: seq<Candidate>, b: seq<Candidate>)
    requires InOrder(a) && InOrder(b) && forall c :: c in a <==> c in b
    ensures a == b
  {
    assert b != [] ==> b[0] in b;
    if a != [] {
      assert a[0] in b;
      assert b[0] in a;
      var i :| 0 <= i < |b| && b[i] == a[0];
      var j :| 0 <= j < |a| && a[j] == b[0];
      OrderTotal(a[0].At(), b[0].At());
      assert i == 0;
      forall c ensures c in a[1..] <==> c in b[1..] {
        OrderTotal(a[0].At(), c.At());
        if c in a[1..] {
          var k :| 0 <= k < |a[1..]| && a[1..][k] == c;
          assert a[k + 1] == c && c in b;
        }
        if c in b[1..] {
          var k :| 0 <= k < |b[1..]| && b[1..][k] == c;
          assert b[k + 1] == c && c in a;
        }
      }
      SameElementsSameOrder(a[1..], b[1..]);
    }
  }

  /** On a table at rest the pages concatenate to the listing: fifty a page until it is used up. */
  lemma {:induction false} StaticPages(r: Reading, query: Query, born: Id -> nat, still: Snapshot)
    requires r.Answers(query) && r.OneTable(born) && r.AtRest(still)
    ensures r.Delivered() <= Listing(still, query)
    ensures r.page.nextCursor.None? ==> r.Delivered() == Listing(still, query)
    ensures r.page.nextCursor.Some? ==> |r.Delivered()| == PAGE_SIZE * r.Pages() < |Listing(still, query)|
  {
    PageShape(r, query, born);
    if r.Then? {
      StaticPages(r.earlier, query, born, still);
      LeftAtRest(r, query, born, still);
      AppendSlice(r.earlier.Delivered(), r.page.sessions, Listing(still, query));
    }
  }

  /** What a later request has left to show is the listing without what came before. */
  lemma LeftAtRest(r: Reading, query: Query, born: Id -> nat, still: Snapshot)
    requires r.Then? && r.Answers(query) && r.OneTable(born) && r.AtRest(still)
    requires r.earlier.Delivered() <= Listing(still, query)
    ensures r.Left(query) == Listing(still, query)[|r.earlier.Delivered()|..]
  {
    var front, cursor := r.earlier.Delivered(), r.Cursor().value;
    NextAtLast(r.earlier, query, born);
    AnchorAtRest(r.earlier, still);
    OrderedInOrder(still.sessions);
    assert front[|front| - 1] == Listing(still, query)[|front| - 1];
    RemainingPast(Ordered(still.sessions), query, still.hits, cursor.anchor, cursor, |front|);
  }

  lemma AppendSlice(front: seq<Candidate>, page: seq<Candidate>, all: seq<Candidate>)
    requires front <= all && page <= all[|front|..]
    ensures front + page <= all
    ensures page == all[|front|..] ==> front + page == all
  {
  }

  lemma {:induction false} AnchorAtRest(r: Reading, still: Snapshot)
    requires r.AtRest(still)
    ensures r.RunAnchor() == Anchor(Ordered(still.sessions), None)
  {
    if r.Then? {
      AnchorAtRest(r.earlier, still);
    }
  }

  /** A cursor a page hands out is accepted back exactly when it is within the decoder's limits. */
  lemma OwnCursorAccepted(r: Reading, query: Query, born: Id -> nat, later: Snapshot)
    requires r.Answers(query) && r.OneTable(born) && r.page.nextCursor.Some?
    ensures r.RunAnchor().Some? && |r.page.sessions| == PAGE_SIZE
    ensures ArchivePage(later.sessions, later.hits, query, r.page.nextCursor).Ok? <==>
              |query.filterKey| <= MAX_FILTER_KEY && ValidKey(r.RunAnchor().value) && ValidKey(r.page.sessions[PAGE_SIZE - 1].At())
  {
    PageShape(r, query, born);
    SameAnchor(r, query, born);
  }
}
