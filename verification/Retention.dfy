/** Archived-history retention: how a policy arms, over two layers and any history of changes, and the
    pass that visits every candidate. */
module Retention {
  import opened Options

  type Organization = string

  /** Milliseconds since the epoch. */
  type Time = int

  const DELAY := 24 * 60 * 60_000
  const DAY := 24 * 60 * 60_000

  // ----- policies -----

  /** Retention is off, or prunes what was archived `days` ago, not before `prunesFrom`. */
  datatype Policy = Off | On(days: nat, prunesFrom: Time)

  /** When pruning may start under `days`: after the delay when that turns retention on or shortens
      it, and otherwise when the current policy allowed it already. */
  function ArmedPrunesFrom(current: Policy, days: nat, now: Time): Time {
    if current.Off? || days < current.days then
      if current.On? && current.prunesFrom > now + DELAY then current.prunesFrom else now + DELAY
    else current.prunesFrom
  }

  function Armed(current: Policy, days: Option<nat>, now: Time): Policy {
    if days.None? then Off else On(days.value, ArmedPrunesFrom(current, days.value, now))
  }

  /** The environment default and the organizations' own settings. */
  datatype Settings = Settings(environment: Policy, saved: map<Organization, Policy>)

  function Effective(s: Settings, o: Organization): Policy {
    if o in s.saved then s.saved[o] else s.environment
  }

  /** A start of the control plane with the environment's value, and a person's change. */
  datatype Change = Restart(days: Option<nat>) | Update(organization: Organization, days: Option<nat>)

  function Changed(s: Settings, change: Change, now: Time): Settings {
    match change
    case Restart(days) => s.(environment := Armed(s.environment, days, now))
    case Update(o, days) => s.(saved := s.saved[o := Armed(Effective(s, o), days, now)])
  }

  /** The cutoff of a batch at `now`, and nothing while the policy is off or not armed. */
  function BatchCutoff(s: Settings, o: Organization, now: Time): Option<Time> {
    var policy := Effective(s, o);
    if policy.On? && now >= policy.prunesFrom then Some(now - policy.days * DAY) else None
  }

  /** What a change makes of a policy: off, or on from when the current one allowed it, unless the change
      turns retention on or shortens it; then a day has to pass, and whatever was still to pass. */
  predicate Follows(before: Policy, after: Policy, days: Option<nat>, now: Time) {
    if days.None? then after == Off
    else
      && after.On? && after.days == days.value
      && (before == Off ==> after.prunesFrom == now + 86_400_000)
      && (before.On? && before.days <= days.value ==> after.prunesFrom == before.prunesFrom)
      && (before.On? && days.value < before.days ==>
            && before.prunesFrom <= after.prunesFrom && now + 86_400_000 <= after.prunesFrom
            && (after.prunesFrom == before.prunesFrom || after.prunesFrom == now + 86_400_000))
  }

  /** A person's change is in force for its organization alone; a restart is, for every organization
      without a setting of its own. */
  lemma ChangeTakesEffect(s: Settings, change: Change, now: Time, o: Organization)
    ensures var k := Changed(s, change, now);
      match change
      case Update(p, days) =>
        if o == p then o in k.saved && Follows(Effective(s, o), Effective(k, o), days, now) else Effective(k, o) == Effective(s, o)
      case Restart(days) =>
        if o in s.saved then Effective(k, o) == Effective(s, o) else Follows(Effective(s, o), Effective(k, o), days, now)
  {
  }

  /** A batch runs exactly while retention is on and armed, and prunes what is older than its days. */
  lemma BatchPrunes(s: Settings, o: Organization, now: Time)
    ensures var policy := Effective(s, o);
      BatchCutoff(s, o, now) == if policy.On? && policy.prunesFrom <= now then Some(now - 86_400_000 * policy.days) else None
  {
  }

  /** A change that neither turns an organization's retention off nor shortens it leaves it pruning if it
      pruned: nothing waits out the delay again. */
  lemma PruningGoesOn(s: Settings, change: Change, now: Time, o: Organization, later: Time)
    requires BatchCutoff(s, o, now).Some? && now <= later
    requires Effective(Changed(s, change, now), o).On? && Effective(s, o).days <= Effective(Changed(s, change, now), o).days
    ensures BatchCutoff(Changed(s, change, now), o, later).Some?
  {
    ChangeTakesEffect(s, change, now, o);
  }

  // ----- histories -----

  /** The settings ever in force, latest first, each with the time from which it was. */
  datatype History = Initial(settings: Settings) | Then(before: History, at: Time, settings: Settings)

  function Latest(h: History): Settings { h.settings }

  /** Changes in the order of a clock that never goes back, none later than `now`. */
  predicate Ordered(h: History, now: Time)
    decreases h
  {
    h.Then? ==> h.at <= now && Ordered(h.before, h.at)
  }

  const NOTHING: Settings := Settings(Off, map[])

  /** What the control plane recorded from nothing, one change after another. */
  ghost predicate Recorded(h: History)
    decreases h
  {
    match h
    case Initial(s) => s == NOTHING
    case Then(before, at, s) => Recorded(before) && exists change :: s == Changed(before.settings, change, at)
  }

  predicate AtMost(s: Settings, o: Organization, days: nat) {
    Effective(s, o).On? && Effective(s, o).days <= days
  }

  /** In all of the time after `since` and up to `until`, the organization's retention was on and
      prunes only what `days` allows. Settings in force at an instant only, are no time. */
  predicate OnThroughout(h: History, o: Organization, days: nat, since: Time, until: Time)
    decreases h
  {
    && (since < until ==> AtMost(h.settings, o, days))
    && (h.Then? ==> OnThroughout(h.before, o, days, since, h.at))
  }

  lemma {:induction false} BeforeSince(h: History, o: Organization, days: nat, since: Time, until: Time)
    requires Ordered(h, until) && until <= since
    ensures OnThroughout(h, o, days, since, until)
    decreases h
  {
    if h.Then? { BeforeSince(h.before, o, days, since, h.at); }
  }

  lemma {:induction false} Looser(h: History, o: Organization, days: nat, since: Time, until: Time, more: nat, later: Time)
    requires OnThroughout(h, o, days, since, until) && days <= more && since <= later
    ensures OnThroughout(h, o, more, later, until)
    decreases h
  {
    if h.Then? { Looser(h.before, o, days, since, h.at, more, later); }
  }

  /** Every policy in force is backed: since its delay before `prunesFrom`, retention was on and at
      most as long. `now` is when the settings are looked at. */
  ghost predicate Backed(h: History, now: Time) {
    forall o :: Effective(h.settings, o).On? ==> BackedFor(h, o, Effective(h.settings, o), now)
  }

  predicate BackedFor(h: History, o: Organization, policy: Policy, now: Time) {
    policy.On? ==> OnThroughout(h, o, policy.days, policy.prunesFrom - DELAY, now)
  }

  lemma LaterIsBacked(h: History, o: Organization, policy: Policy, now: Time, later: Time)
    requires BackedFor(h, o, policy, now) && AtMost(h.settings, o, if policy.On? then policy.days else 0) && now <= later
    ensures BackedFor(h, o, policy, later)
  {
  }

  /** A policy armed now over the current one is backed from the moment it is in force. */
  lemma ArmedIsBacked(h: History, o: Organization, days: Option<nat>, now: Time, s: Settings)
    requires Ordered(h, now) && Backed(h, now)
    requires Effective(s, o) == Armed(Effective(h.settings, o), days, now)
    ensures Effective(s, o).On? ==> BackedFor(Then(h, now, s), o, Effective(s, o), now)
  {
    var current, policy := Effective(h.settings, o), Effective(s, o);
    if policy.On? {
      if current.Off? || policy.days < current.days {
        BeforeSince(h, o, policy.days, policy.prunesFrom - DELAY, now);
      } else {
        Looser(h, o, current.days, current.prunesFrom - DELAY, now, policy.days, policy.prunesFrom - DELAY);
      }
    }
  }

  lemma ChangeIsBacked(h: History, change: Change, now: Time)
    requires Ordered(h, now) && Backed(h, now)
    ensures Backed(Then(h, now, Changed(h.settings, change, now)), now)
  {
    var s := Changed(h.settings, change, now);
    forall o | Effective(s, o).On? ensures BackedFor(Then(h, now, s), o, Effective(s, o), now) {
      if Effective(s, o) == Effective(h.settings, o) {
        assert BackedFor(h, o, Effective(s, o), now);
      } else {
        ArmedIsBacked(h, o, change.days, now, s);
      }
    }
  }

  lemma TimePasses(h: History, now: Time, later: Time)
    requires Backed(h, now) && now <= later
    ensures Backed(h, later)
  {
    forall o | Effective(h.settings, o).On? ensures BackedFor(h, o, Effective(h.settings, o), later) {
      LaterIsBacked(h, o, Effective(h.settings, o), now, later);
    }
  }

  lemma {:induction false} HistoriesAreBacked(h: History, now: Time)
    requires Recorded(h) && Ordered(h, now)
    ensures Backed(h, now)
    decreases h
  {
    match h
    case Initial(_) =>
    case Then(before, at, s) =>
      HistoriesAreBacked(before, at);
      var change :| s == Changed(before.settings, change, at);
      ChangeIsBacked(before, change, at);
      TimePasses(h, at, now);
  }

  /** Retention is safe over time: whatever changes of the environment and of organizations came
      before, a batch that prunes at `now` does so under a policy of `days` that was in force, on and
      no shorter allowance than `days`, throughout the whole delay before. */
  lemma PruningWaitsOutDelay(h: History, o: Organization, now: Time)
    requires Recorded(h) && Ordered(h, now)
    requires BatchCutoff(h.settings, o, now).Some?
    ensures Effective(h.settings, o).On?
    ensures BatchCutoff(h.settings, o, now).value == now - Effective(h.settings, o).days * DAY
    ensures OnThroughout(h, o, Effective(h.settings, o).days, now - DELAY, now)
  {
    HistoriesAreBacked(h, now);
    var policy := Effective(h.settings, o);
    assert BackedFor(h, o, policy, now);
    Looser(h, o, policy.days, policy.prunesFrom - DELAY, now, policy.days, now - DELAY);
  }

  // ----- arming ends -----

  /** No policy waits for longer than the delay after the last change. */
  ghost predicate WaitsAtMost(s: Settings, now: Time) {
    && (s.environment.On? ==> s.environment.prunesFrom <= now + DELAY)
    && (forall o :: o in s.saved && s.saved[o].On? ==> s.saved[o].prunesFrom <= now + DELAY)
  }

  function LastChange(h: History): Option<Time> {
    if h.Then? then Some(h.at) else None
  }

  lemma {:induction false} HistoriesWaitAtMost(h: History, now: Time)
    requires Recorded(h) && Ordered(h, now)
    ensures h.Then? ==> WaitsAtMost(h.settings, h.at)
    decreases h
  {
    match h
    case Initial(_) =>
    case Then(before, at, s) =>
      HistoriesWaitAtMost(before, at);
      var change :| s == Changed(before.settings, change, at);
      assert WaitsAtMost(before.settings, at);
  }

  /** Arming ends: once the delay has passed since the last change, an organization whose retention is
      on prunes. A policy turned on or shortened waits exactly the delay. */
  lemma PruningStartsAfterDelay(h: History, o: Organization, now: Time)
    requires Recorded(h) && Ordered(h, now) && h.Then? && h.at + DELAY <= now
    ensures Effective(h.settings, o).On? ==> BatchCutoff(h.settings, o, now).Some?
  {
    HistoriesWaitAtMost(h, now);
  }

  lemma ShorteningWaitsExactly(h: History, o: Organization, days: nat, now: Time)
    requires Recorded(h) && Ordered(h, now)
    requires Effective(h.settings, o).Off? || days < Effective(h.settings, o).days
    ensures Effective(Changed(h.settings, Update(o, Some(days)), now), o) == On(days, now + DELAY)
  {
    HistoriesWaitAtMost(h, now);
  }

  // ----- one pass over an organization -----

  type SessionId = string

  const PAGE := 50

  predicate Distinct(ids: seq<SessionId>) {
    forall i, j :: 0 <= i < j < |ids| ==> ids[i] != ids[j]
  }

  function Elements(ids: seq<SessionId>): set<SessionId> {
    set id | id in ids
  }

  function FirstOf(ids: seq<SessionId>, limit: nat): seq<SessionId> {
    if limit < |ids| then ids[..limit] else ids
  }

  function Unvisited(ids: seq<SessionId>, visited: set<SessionId>): seq<SessionId> {
    if ids == [] then [] else (if ids[0] in visited then [] else [ids[0]]) + Unvisited(ids[1..], visited)
  }

  function Without(ids: seq<SessionId>, id: SessionId): seq<SessionId> {
    if ids == [] then [] else if ids[0] == id then ids[1..] else [ids[0]] + Without(ids[1..], id)
  }

  lemma {:induction false} UnvisitedAre(ids: seq<SessionId>, visited: set<SessionId>)
    requires Distinct(ids)
    ensures var rest := Unvisited(ids, visited);
      Distinct(rest) && forall id :: id in rest <==> id in ids && id !in visited
    decreases |ids|
  {
    if ids != [] {
      assert forall i, j :: 0 <= i < j < |ids[1..]| ==> ids[1..][i] == ids[i + 1] && ids[1..][j] == ids[j + 1];
      UnvisitedAre(ids[1..], visited);
      assert ids == [ids[0]] + ids[1..];
      assert ids[0] !in ids[1..];
    }
  }

  lemma {:induction false} WithoutIs(ids: seq<SessionId>, id: SessionId)
    requires Distinct(ids)
    ensures var rest := Without(ids, id);
      Distinct(rest) && forall other :: other in rest <==> other in ids && other != id
    decreases |ids|
  {
    if ids != [] {
      assert forall i, j :: 0 <= i < j < |ids[1..]| ==> ids[1..][i] == ids[i + 1] && ids[1..][j] == ids[j + 1];
      WithoutIs(ids[1..], id);
      assert ids == [ids[0]] + ids[1..];
      assert ids[0] !in ids[1..];
    }
  }

  lemma {:induction false} DistinctFit(ids: seq<SessionId>, bound: set<SessionId>)
    requires Distinct(ids) && forall id :: id in ids ==> id in bound
    ensures |ids| <= |bound|
    decreases |ids|
  {
    if ids != [] {
      var last := ids[|ids| - 1];
      var init := ids[..|ids| - 1];
      assert last !in init;
      DistinctFit(init, bound - {last});
    }
  }

  /** A page longer than what was visited shows an unvisited candidate while there is one. */
  lemma PageShowsUnvisited(candidates: seq<SessionId>, visited: set<SessionId>)
    requires Distinct(candidates)
    requires Unvisited(FirstOf(candidates, PAGE + |visited|), visited) == []
    ensures forall id :: id in candidates ==> id in visited
  {
    var page := FirstOf(candidates, PAGE + |visited|);
    UnvisitedAre(page, visited);
    assert forall id :: id in page ==> id in visited by {
      forall id | id in page ensures id in visited {
        assert id !in Unvisited(page, visited);
      }
    }
    DistinctFit(page, visited);
    assert page == candidates;
  }

  class PrunePass {
    /** What the candidate query would list now. */
    var candidates: seq<SessionId>
    var visited: set<SessionId>
    ghost var order: seq<SessionId>

    ghost predicate Valid()
      reads this
    {
      Distinct(candidates) && Distinct(order) && Elements(order) == visited
    }

    constructor (listed: seq<SessionId>)
      requires Distinct(listed)
      ensures Valid() && candidates == listed && visited == {} && order == []
    {
      candidates, visited, order := listed, {}, [];
    }

    /** Prunes one session; it stays a candidate when that fails or newer rows arrived. */
    method Visit(id: SessionId, stays: bool)
      requires Valid() && id !in visited
      modifies this
      ensures Valid() && visited == old(visited) + {id} && order == old(order) + [id]
      ensures forall other :: other in candidates <==> other in old(candidates) && (stays || other != id)
    {
      visited := visited + {id};
      order := order + [id];
      if !stays {
        WithoutIs(candidates, id);
        candidates := Without(candidates, id);
      }
    }

    method VisitAll(ids: seq<SessionId>, staying: set<SessionId>)
      requires Valid() && Distinct(ids) && forall id :: id in ids ==> id !in visited
      modifies this
      ensures Valid() && order == old(order) + ids && visited == old(visited) + Elements(ids)
      ensures forall id :: id in candidates <==> id in old(candidates) && (id in staying || id !in ids)
    {
      for i := 0 to |ids|
        invariant Valid() && order == old(order) + ids[..i] && visited == old(visited) + Elements(ids[..i])
        invariant forall id :: id in candidates <==> id in old(candidates) && (id in staying || id !in ids[..i])
      {
        assert ids[..i + 1] == ids[..i] + [ids[i]];
        assert ids[i] !in ids[..i];
        Visit(ids[i], ids[i] in staying);
      }
      assert ids[..|ids|] == ids;
    }

    /** The next page of candidates that were not visited yet; none is shown once all were visited. */
    method VisitPage(staying: set<SessionId>) returns (shown: bool)
      requires Valid()
      modifies this
      ensures Valid() && old(order) <= order
      ensures !shown ==> visited == old(visited) && candidates == old(candidates) && Elements(candidates) <= visited
      ensures shown ==> old(visited) < visited
      ensures visited <= old(visited) + Elements(old(candidates))
      ensures Elements(candidates) <= Elements(old(candidates)) <= Elements(candidates) + visited
    {
      var page := FirstOf(candidates, PAGE + |visited|);
      UnvisitedAre(page, visited);
      var left := Unvisited(page, visited);
      if left == [] {
        PageShowsUnvisited(candidates, visited);
        return false;
      }
      assert left[0] in left;
      assert forall id :: id in left ==> id in page;
      VisitAll(left, staying);
      assert left[0] in visited && left[0] !in old(visited);
      return true;
    }

    /** A whole pass of an armed organization: runs left open first, then page after page. `staying`
        are the sessions that remain candidates after their visit. It ends, having visited every
        open run and every candidate exactly once, and nothing else. */
    method Prune(open: seq<SessionId>, staying: set<SessionId>)
      requires Valid() && visited == {} && order == [] && Distinct(open)
      modifies this
      ensures visited == Elements(open) + Elements(old(candidates))
      ensures Distinct(order) && Elements(order) == visited && open <= order
    {
      ghost var all := Elements(candidates);
      VisitAll(open, staying);
      var shown := true;
      while shown
        invariant Valid() && open <= order
        invariant Elements(open) <= visited <= Elements(open) + all
        invariant Elements(candidates) <= all <= Elements(candidates) + visited
        invariant !shown ==> Elements(candidates) <= visited
        decreases Elements(open) + all - visited, shown
      {
        shown := VisitPage(staying);
      }
    }
  }
}
