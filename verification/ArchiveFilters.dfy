/** Which sessions the archive shows, filter by filter, on one page and over complete readings of a
    table at rest. */
module ArchiveFilters {
  import opened ArchivePages
  import opened Options

  // ----- the filters -----

  /** Archived, or about to be. */
  predicate Shelved(c: Candidate) { c.archived || c.archivePending }

  /** A filter that is empty, or equal to the session's own value. */
  predicate Admits(filter: string, value: string) { filter == "" || value == filter }

  predicate HasAt(text: string, part: string, from: nat) {
    from + |part| <= |text| && text[from..from + |part|] == part
  }

  /** The text has the searched part somewhere. */
  ghost predicate Mentions(text: string, part: string) {
    exists from :: HasAt(text, part, from)
  }

  ghost predicate FoundBy(c: Candidate, q: string, hits: set<Id>) {
    q == "" || Mentions(c.text, q) || c.id in hits
  }

  /** What a request asks for besides the archive state. */
  ghost predicate Asked(c: Candidate, query: Query, hits: set<Id>) {
    && (query.lifecycle == "all" || c.status == query.lifecycle)
    && Admits(query.project, c.project) && Admits(query.location, c.location) && Admits(query.agent, c.agent)
    && FoundBy(c, query.q, hits)
  }

  /** The archive state a request asks for. */
  predicate InState(c: Candidate, archive: string) {
    (archive == "archived" ==> Shelved(c)) && (archive == "unarchived" ==> !Shelved(c))
  }

  lemma {:induction false} ContainsIs(text: string, part: string)
    ensures Contains(text, part) <==> Mentions(text, part)
    decreases |text|
  {
    if part <= text {
      assert HasAt(text, part, 0);
    } else if text != "" {
      ContainsIs(text[1..], part);
      if from: nat :| HasAt(text[1..], part, from) {
        assert HasAt(text, part, from + 1);
      }
      if from: nat :| HasAt(text, part, from) {
        assert from > 0;
        assert HasAt(text[1..], part, from - 1);
      }
    }
  }

  lemma MatchesIs(c: Candidate, query: Query, hits: set<Id>)
    ensures Matches(c, query, hits) <==> InState(c, query.archive) && Asked(c, query, hits)
  {
    ContainsIs(c.text, query.q);
  }

  // ----- requests that are refused -----

  /** A cursor within the decoder's limits. */
  predicate Readable(cursor: Cursor) {
    && |cursor.filterKey| <= 2048
    && cursor.anchor.createdAt < 0x20_0000_0000_0000 && 1 <= |cursor.anchor.id| <= 512
    && cursor.after.createdAt < 0x20_0000_0000_0000 && 1 <= |cursor.after.id| <= 512
  }

  predicate KnownStatus(status: string) {
    status in {"queued", "starting", "running", "input_required", "idle", "completed", "failed", "stopped"}
  }

  /** Why a request is refused, the first reason first; every other request gets a page. */
  lemma RefusedExactly(sessions: seq<Candidate>, hits: set<Id>, query: Query, cursor: Option<Cursor>)
    ensures var r := ArchivePage(sessions, hits, query, cursor);
      if query.archive !in {"archived", "unarchived", "all"} then r == Refused(InvalidArchiveFilter)
      else if query.lifecycle != "all" && !KnownStatus(query.lifecycle) then r == Refused(InvalidLifecycleFilter)
      else if cursor.Some? && !Readable(cursor.value) then r == Refused(InvalidCursor)
      else if cursor.Some? && cursor.value.filterKey != query.filterKey then r == Refused(CursorOfOtherFilters)
      else r.Ok?
  {
  }

  // ----- one page -----

  /** Newer, or as new and first by id. */
  predicate Earlier(a: Key, b: Key) {
    b.createdAt < a.createdAt || (a.createdAt == b.createdAt && IdBefore(a.id, b.id))
  }

  /** A session that this request is for: not in front of the cursor's anchor, behind its last session,
      in the state asked for, and found by every filter. */
  ghost predicate Wanted(c: Candidate, query: Query, hits: set<Id>, cursor: Option<Cursor>) {
    && InState(c, query.archive) && Asked(c, query, hits)
    && (cursor.Some? ==> !Earlier(c.At(), cursor.value.anchor) && Earlier(cursor.value.after, c.At()))
  }

  lemma AtOrBelowIs(key: Key, anchor: Key)
    ensures AtOrBelow(key, anchor) <==> !Earlier(key, anchor)
  {
  }

  /** A page shows sessions of the table that the request is for, in order: all of them, or the first
      fifty, and then it says that there are more and where it stopped. */
  lemma PageShowsWanted(sessions: seq<Candidate>, hits: set<Id>, query: Query, cursor: Option<Cursor>)
    requires DistinctIds(sessions) && ArchivePage(sessions, hits, query, cursor).Ok?
    ensures var page := ArchivePage(sessions, hits, query, cursor).page;
      && InOrder(page.sessions)
      && (forall c :: c in page.sessions ==> c in sessions && Wanted(c, query, hits, cursor))
      && (!page.hasMore ==> page.nextCursor.None? && forall c :: c in sessions && Wanted(c, query, hits, cursor) ==> c in page.sessions)
      && (page.hasMore ==>
            && |page.sessions| == 50 && page.nextCursor.Some? && page.nextCursor.value.after == page.sessions[49].At()
            && forall c :: c in sessions && Wanted(c, query, hits, cursor) && c !in page.sessions ==> Earlier(page.sessions[49].At(), c.At()))
  {
    var ordered := Ordered(sessions);
    OrderedInOrder(sessions);
    var anchor := Anchor(ordered, cursor);
    if anchor.Some? {
      var left := Remaining(ordered, query, hits, anchor.value, cursor);
      RemainingInOrder(ordered, query, hits, anchor.value, cursor);
      forall c | c in sessions ensures c in left <==> Wanted(c, query, hits, cursor) {
        LeftIsWanted(sessions, hits, query, cursor, c);
      }
      assert forall c :: c in left ==> c in sessions;
      CutShows(left);
    } else {
      assert forall c :: c in sessions ==> c in ordered;
    }
  }

  lemma LeftIsWanted(sessions: seq<Candidate>, hits: set<Id>, query: Query, cursor: Option<Cursor>, c: Candidate)
    requires DistinctIds(sessions) && c in sessions && Anchor(Ordered(sessions), cursor).Some?
    ensures c in Remaining(Ordered(sessions), query, hits, Anchor(Ordered(sessions), cursor).value, cursor) <==> Wanted(c, query, hits, cursor)
  {
    var ordered := Ordered(sessions);
    OrderedInOrder(sessions);
    MatchesIs(c, query, hits);
    var anchor := Anchor(ordered, cursor).value;
    AtOrBelowIs(c.At(), anchor);
    if cursor.None? {
      var i :| 0 <= i < |ordered| && ordered[i] == c;
      OrderTotal(ordered[0].At(), c.At());
    }
  }

  lemma CutShows(left: seq<Candidate>)
    requires InOrder(left)
    ensures var page := if |left| > PAGE_SIZE then left[..PAGE_SIZE] else left;
      && InOrder(page) && (forall c :: c in page ==> c in left)
      && (|left| > PAGE_SIZE ==> forall c :: c in left && c !in page ==> Earlier(page[49].At(), c.At()))
  {
    if |left| > PAGE_SIZE {
      var page := left[..PAGE_SIZE];
      forall i | PAGE_SIZE <= i < |left| ensures Earlier(page[49].At(), left[i].At()) {
        assert Before(left[49].At(), left[i].At());
      }
      assert left == page + left[PAGE_SIZE..];
    }
  }

  // ----- complete readings at rest -----

  /** A reading that followed every cursor to the last page, on a table that did not change. */
  ghost predicate Complete(r: Reading, query: Query, born: Id -> nat, still: Snapshot) {
    r.Answers(query) && r.OneTable(born) && r.AtRest(still) && r.page.nextCursor.None?
  }

  /** A complete reading delivers exactly the sessions in the state asked for that every filter finds:
      under "archived" those that are archived or pending, under "unarchived" the others, and under "all"
      both; with each project, location, agent and lifecycle that is given, only those of equal value;
      and with a search, only those whose text or transcript has it. */
  lemma DeliversExactlyWanted(r: Reading, query: Query, born: Id -> nat, still: Snapshot, c: Candidate)
    requires Complete(r, query, born, still)
    ensures c in r.Delivered() <==>
      && c in still.sessions
      && (query.archive == "archived" ==> c.archived || c.archivePending)
      && (query.archive == "unarchived" ==> !c.archived && !c.archivePending)
      && (query.lifecycle == "all" || c.status == query.lifecycle)
      && (query.project == "" || c.project == query.project)
      && (query.location == "" || c.location == query.location)
      && (query.agent == "" || c.agent == query.agent)
      && (query.q == "" || Mentions(c.text, query.q) || c.id in still.hits)
  {
    StaticPages(r, query, born, still);
    TableOf(r, born, still);
    ListingIsWanted(still, query, c);
  }

  lemma {:induction false} TableOf(r: Reading, born: Id -> nat, still: Snapshot)
    requires r.OneTable(born) && r.AtRest(still)
    ensures DistinctIds(still.sessions)
  {
  }

  lemma ListingIsWanted(still: Snapshot, query: Query, c: Candidate)
    requires DistinctIds(still.sessions)
    ensures c in Listing(still, query) <==> c in still.sessions && InState(c, query.archive) && Asked(c, query, still.hits)
  {
    var ordered := Ordered(still.sessions);
    if c in still.sessions {
      assert c in ordered;
      LeftIsWanted(still.sessions, still.hits, query, None, c);
    }
  }

  /** The same request for another archive state. */
  predicate Otherwise(a: Query, b: Query) {
    a.lifecycle == b.lifecycle && a.project == b.project && a.location == b.location && a.agent == b.agent && a.q == b.q
  }

  /** The archived and the unarchived readings partition the reading of all. */
  lemma StatesPartition(ra: Reading, ru: Reading, rall: Reading, qa: Query, qu: Query, all: Query, born: Id -> nat, still: Snapshot, c: Candidate)
    requires Complete(ra, qa, born, still) && Complete(ru, qu, born, still) && Complete(rall, all, born, still)
    requires qa.archive == "archived" && qu.archive == "unarchived" && all.archive == "all" && Otherwise(qa, all) && Otherwise(qu, all)
    ensures c in rall.Delivered() <==> c in ra.Delivered() || c in ru.Delivered()
    ensures !(c in ra.Delivered() && c in ru.Delivered())
  {
    DeliversExactlyWanted(ra, qa, born, still, c);
    DeliversExactlyWanted(ru, qu, born, still, c);
    DeliversExactlyWanted(rall, all, born, still, c);
  }
}
