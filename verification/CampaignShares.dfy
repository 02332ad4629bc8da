/** How an allowance is divided: the default reservations of successive workers, a reviewer's share,
    and the first division among live members. */
module CampaignShares {
  import opened CampaignBudget
  import opened CampaignTotals
  import opened CampaignRuns
  import opened Options

  // ----- reading twice -----

  /** An active allowance with nothing left to settle, note or stop. */
  predicate Calm(l: Ledger, w: World, root: SessionId) {
    && root in l.budgets && l.budgets[root].state.Active?
    && (forall s :: s in EndedMembers(l, w, root) ==> !ProvenNow(l, w, s))
    && (AnyUnpriced(l, w, root) ==> l.budgets[root].costUnpriced)
    && (l.budgets[root].costUnpriced ==> l.budgets[root].authority.costUsd.None?)
  }

  /** Every ceiling has more than `least` left. */
  ghost predicate Leaves(l: Ledger, root: SessionId, least: nat)
    requires root in l.budgets
  {
    forall d :: Ceiling(l.budgets[root].authority, d).Some? ==> least <= Remaining(l, root, d)
  }

  lemma NothingToSettle(l: Ledger, w: World, root: SessionId)
    requires Calm(l, w, root)
    ensures SettleAll(l, w, root, EndedMembers(l, w, root)) == l
  {
    var k := SettleAll(l, w, root, EndedMembers(l, w, root));
    assert k.members == l.members;
    assert k.settlements == l.settlements;
    assert k.checkpoints == l.checkpoints;
  }

  lemma CalmReads(l: Ledger, w: World, root: SessionId)
    requires Calm(l, w, root) && !Reached(l, root, Cost) && !Reached(l, root, Tools)
    ensures Read(l, w, root) == l
  {
    NothingToSettle(l, w, root);
    assert StandingOf(l.budgets[root], AnyUnpriced(l, w, root), false) == l.budgets[root];
  }

  lemma SettledIsCalm(l: Ledger, w: World, root: SessionId, s: SessionId)
    requires Open(SettleAll(l, w, root, EndedMembers(l, w, root)), root)
    requires s in EndedMembers(SettleAll(l, w, root, EndedMembers(l, w, root)), w, root)
    ensures !ProvenNow(SettleAll(l, w, root, EndedMembers(l, w, root)), w, s)
  {
    var ids := EndedMembers(l, w, root);
    SettlingSpares(l, w, root, ids, s);
    if ProvenNow(l, w, s) {
      assert Unaccountable(l, w, s);
      assert AnyBlocked(l, w, ids);
    }
  }

  /** What is still to settle after a settlement was not settled by it. */
  lemma SettlingSpares(l: Ledger, w: World, root: SessionId, ids: set<SessionId>, s: SessionId)
    requires s in SettleAll(l, w, root, ids).checkpoints && s in SettleAll(l, w, root, ids).members
    ensures s in l.members && s in l.checkpoints && s !in Settleable(l, w, ids)
    ensures SettleAll(l, w, root, ids).members[s] == l.members[s]
    ensures ProvenNow(SettleAll(l, w, root, ids), w, s) <==> ProvenNow(l, w, s)
  {
  }

  lemma StandingIsCalm(k: Ledger, w: World, root: SessionId)
    requires Open(Standing(k, w, root), root)
    requires forall s :: s in EndedMembers(k, w, root) ==> !ProvenNow(k, w, s)
    ensures var r := Standing(k, w, root); Calm(r, w, root) && !Reached(r, root, Cost) && !Reached(r, root, Tools)
  {
    var r := Standing(k, w, root);
    StandingKeepsRows(k, w, root);
    forall s | s in EndedMembers(r, w, root) ensures !ProvenNow(r, w, s) {
      assert s in EndedMembers(k, w, root);
    }
  }

  /** Reading an allowance that stays active a second time changes nothing. */
  lemma ReadTwice(l: Ledger, w: World, root: SessionId)
    requires Open(Read(l, w, root), root)
    ensures Calm(Read(l, w, root), w, root)
    ensures Read(Read(l, w, root), w, root) == Read(l, w, root)
  {
    var k := SettleAll(l, w, root, EndedMembers(l, w, root));
    forall s | s in EndedMembers(k, w, root) ensures !ProvenNow(k, w, s) {
      SettledIsCalm(l, w, root, s);
    }
    StandingIsCalm(k, w, root);
    CalmReads(Standing(k, w, root), w, root);
  }

  lemma NotReached(l: Ledger, root: SessionId)
    requires root in l.budgets && Leaves(l, root, 1)
    ensures !Reached(l, root, Cost) && !Reached(l, root, Tools)
  {
    forall d ensures !Reached(l, root, d) { TotalSplits(l, root, d); }
  }

  // ----- spending inside limits -----

  /** Usage reports in the order they arrive. */
  datatype Reports = NoMore | Report(session: SessionId, cost: nat, toolCalls: nat, rest: Reports)

  function Spend(l: Ledger, reports: Reports): Ledger
    decreases reports
  {
    match reports
    case NoMore => l
    case Report(s, cost, tools, rest) => Spend(SessionUsage(l, s, cost, tools), rest)
  }

  /** A report within what its member's reservation covers, where the campaign has a ceiling. */
  predicate Inside(l: Ledger, root: SessionId, s: SessionId, cost: nat, tools: nat) {
    && root in l.budgets
    && (s in l.members && l.members[s].root == root ==>
          var m, authority := l.members[s], l.budgets[root].authority;
          && (authority.costUsd.Some? ==> cost <= m.cost.Covered(m.active))
          && (authority.toolCalls.Some? ==> tools <= m.tools.Covered(m.active)))
  }

  predicate AllInside(l: Ledger, root: SessionId, reports: Reports)
    decreases reports
  {
    match reports
    case NoMore => true
    case Report(s, cost, tools, rest) => Inside(l, root, s, cost, tools) && AllInside(SessionUsage(l, s, cost, tools), root, rest)
  }

  /** What spending inside limits leaves alone. */
  ghost predicate SameStanding(l: Ledger, k: Ledger, w: World, root: SessionId) {
    && k.budgets == l.budgets && k.members.Keys == l.members.Keys
    && (Calm(l, w, root) ==> Calm(k, w, root))
    && OccupiedSlots(k, w, root) == OccupiedSlots(l, w, root)
    && (root in l.budgets ==> forall d :: Ceiling(l.budgets[root].authority, d).Some? ==> Total(k, root, d) == Total(l, root, d))
  }

  lemma ReportKeepsTotal(l: Ledger, root: SessionId, s: SessionId, cost: nat, tools: nat, d: Dim)
    requires Inside(l, root, s, cost, tools) && Ceiling(l.budgets[root].authority, d).Some?
    ensures Total(SessionUsage(l, s, cost, tools), root, d) == Total(l, root, d)
  {
    if s in l.members {
      var m := l.members[s];
      SumUpdate(l.members, s, m.(cost := m.cost.Charge(m.active, cost), tools := m.tools.Charge(m.active, tools)), CoveredIn(root, d));
    }
  }

  lemma ReportKeepsCalm(l: Ledger, w: World, root: SessionId, s: SessionId, cost: nat, tools: nat)
    ensures var k := SessionUsage(l, s, cost, tools);
      && (Calm(l, w, root) ==> Calm(k, w, root))
      && OccupiedSlots(k, w, root) == OccupiedSlots(l, w, root)
  {
    var k := SessionUsage(l, s, cost, tools);
    assert EndedMembers(k, w, root) == EndedMembers(l, w, root);
    assert OccupiedSlots(k, w, root) == OccupiedSlots(l, w, root);
    if Calm(l, w, root) {
      forall t | t in EndedMembers(k, w, root) ensures !ProvenNow(k, w, t) {
        assert ProvenNow(k, w, t) <==> ProvenNow(l, w, t);
      }
    }
  }

  lemma ReportKeepsStanding(l: Ledger, w: World, root: SessionId, s: SessionId, cost: nat, tools: nat)
    requires Inside(l, root, s, cost, tools)
    ensures SameStanding(l, SessionUsage(l, s, cost, tools), w, root)
  {
    var k := SessionUsage(l, s, cost, tools);
    ReportKeepsCalm(l, w, root, s, cost, tools);
    forall d | Ceiling(l.budgets[root].authority, d).Some? ensures Total(k, root, d) == Total(l, root, d) {
      ReportKeepsTotal(l, root, s, cost, tools, d);
    }
  }

  lemma {:induction false} SpendingKeepsStanding(l: Ledger, w: World, root: SessionId, reports: Reports)
    requires AllInside(l, root, reports)
    ensures SameStanding(l, Spend(l, reports), w, root)
    decreases reports
  {
    match reports
    case NoMore =>
    case Report(s, cost, tools, rest) =>
      ReportKeepsStanding(l, w, root, s, cost, tools);
      SpendingKeepsStanding(SessionUsage(l, s, cost, tools), w, root, rest);
  }

  // ----- one default admission -----

  /** A session that starts work in the campaign: no member yet, not ended and no reviewer; its usage so
      far is priced where there is a cost ceiling. */
  predicate NewWorker(l: Ledger, w: World, root: SessionId, s: SessionId) {
    && s !in l.members && s != root && s !in w.reviewers && !Ended(w, s)
    && (CostCeiling(l, root) ==> s !in w.unpriced)
  }

  const NONE: Limits := Limits(None, None)

  function Part(a: Allocation, d: Dim): Option<nat> {
    if d.Cost? then a.costUsd else a.toolCalls
  }

  lemma DefaultShare(l: Ledger, w: World, root: SessionId, s: SessionId, d: Dim)
    requires root in l.budgets && s !in l.members
    ensures Part(Prepare(l, w, root, s, NONE, false), d) ==
      if Ceiling(l.budgets[root].authority, d).None? then None
      else Some(Remaining(l, root, d) / Max(1, FreeSlots(l, w, root)))
  {
  }

  lemma ShareFits(remaining: nat, free: nat)
    requires 1 <= free <= remaining
    ensures 1 <= remaining / free <= remaining && free - 1 <= remaining - remaining / free
  {
    var k := remaining / free;
    assert free * k <= remaining < free * k + free;
    assert free * k - k == (free - 1) * k;
    Scaled(free - 1, k);
  }

  lemma Scaled(x: nat, k: nat)
    requires 1 <= k
    ensures x <= x * k
  {
  }

  /** With a free slot and enough left, a new worker's default allocation is admitted. */
  lemma WorkerIsAdmitted(l: Ledger, w: World, root: SessionId, s: SessionId, g: Generation)
    requires Calm(l, w, root) && NewWorker(l, w, root, s)
    requires 1 <= FreeSlots(l, w, root) && Leaves(l, root, FreeSlots(l, w, root))
    ensures var a := Prepare(l, w, root, s, NONE, false);
      && Read(l, w, root) == l
      && AdmissionError(l, w, root, a, NONE, true, g).None?
  {
    NotReached(l, root);
    CalmReads(l, w, root);
    var a, m := Prepare(l, w, root, s, NONE, false), NewMember(root, NONE, g);
    forall d ensures DimError(l, root, m, a, d).None? {
      DefaultShare(l, w, root, s, d);
      if Ceiling(l.budgets[root].authority, d).Some? {
        ShareFits(Remaining(l, root, d), FreeSlots(l, w, root));
      }
    }
  }

  /** The ledger once `s` is admitted with the default allocation. */
  ghost function WithWorker(l: Ledger, w: World, root: SessionId, s: SessionId, g: Generation): Ledger
    requires root in l.budgets
  {
    NoteUnpriced(Admitted(l, root, Prepare(l, w, root, s, NONE, false), NONE, true, g), w, root)
  }

  /** The campaign's grant is what it was. */
  predicate SameGrant(l: Ledger, k: Ledger, root: SessionId) {
    root in l.budgets && root in k.budgets && k.budgets[root].authority == l.budgets[root].authority
  }

  lemma WorkerEndsNothing(l: Ledger, w: World, root: SessionId, s: SessionId, g: Generation, t: SessionId)
    requires Calm(l, w, root) && NewWorker(l, w, root, s) && t in EndedMembers(WithWorker(l, w, root, s, g), w, root)
    ensures !ProvenNow(WithWorker(l, w, root, s, g), w, t)
  {
    assert t in EndedMembers(l, w, root);
    assert ProvenNow(WithWorker(l, w, root, s, g), w, t) <==> ProvenNow(l, w, t);
  }

  lemma WorkerKeepsCalm(l: Ledger, w: World, root: SessionId, s: SessionId, g: Generation)
    requires Calm(l, w, root) && NewWorker(l, w, root, s)
    ensures Calm(WithWorker(l, w, root, s, g), w, root) && SameGrant(l, WithWorker(l, w, root, s, g), root)
  {
    var k := WithWorker(l, w, root, s, g);
    forall t | t in EndedMembers(k, w, root) ensures !ProvenNow(k, w, t) {
      WorkerEndsNothing(l, w, root, s, g, t);
    }
    forall t | CostCeiling(l, root) && t in k.members && k.members[t].root == root ensures t !in w.unpriced {
      assert t in l.members && t in w.unpriced ==> AnyUnpriced(l, w, root);
    }
  }

  /** The one row that an admitted worker adds. */
  lemma WorkerRow(l: Ledger, w: World, root: SessionId, s: SessionId, g: Generation) returns (m: Member)
    requires root in l.budgets && s !in l.members
    ensures var k := WithWorker(l, w, root, s, g);
      k.members == l.members[s := m] && k.checkpoints == l.checkpoints - {s} && SameGrant(l, k, root)
    ensures m.root == root && m.active
  {
    m := Allocated(NewMember(root, NONE, g), Prepare(l, w, root, s, NONE, false), true);
  }

  /** A new active member that has not ended occupies one slot more. */
  lemma WorkerOccupies(l: Ledger, k: Ledger, w: World, root: SessionId, s: SessionId, m: Member)
    requires s !in l.members && s != root && s !in w.reviewers && !Ended(w, s) && m.root == root && m.active
    requires k.members == l.members[s := m] && k.checkpoints == l.checkpoints - {s}
    ensures |OccupiedSlots(k, w, root)| == |OccupiedSlots(l, w, root)| + 1
  {
    forall t | t in l.members ensures t in OccupiedSlots(k, w, root) <==> t in OccupiedSlots(l, w, root) {
      assert Occupying(k, w, t) <==> Occupying(l, w, t);
    }
    assert Occupying(k, w, s);
    assert OccupiedSlots(k, w, root) == OccupiedSlots(l, w, root) + {s};
  }

  lemma SlotTaken(l: Ledger, k: Ledger, w: World, root: SessionId)
    requires SameGrant(l, k, root) && |OccupiedSlots(k, w, root)| == |OccupiedSlots(l, w, root)| + 1 && 1 <= FreeSlots(l, w, root)
    ensures FreeSlots(k, w, root) == FreeSlots(l, w, root) - 1
  {
  }

  lemma WorkerTakesSlot(l: Ledger, w: World, root: SessionId, s: SessionId, g: Generation)
    requires root in l.budgets && NewWorker(l, w, root, s) && 1 <= FreeSlots(l, w, root)
    ensures root in WithWorker(l, w, root, s, g).budgets
    ensures FreeSlots(WithWorker(l, w, root, s, g), w, root) == FreeSlots(l, w, root) - 1
  {
    var m := WorkerRow(l, w, root, s, g);
    WorkerOccupies(l, WithWorker(l, w, root, s, g), w, root, s, m);
    SlotTaken(l, WithWorker(l, w, root, s, g), w, root);
  }

  /** A new worker's default allocation is taken from what was left, and nothing else is. */
  lemma WorkerTakesShare(l: Ledger, w: World, root: SessionId, s: SessionId, g: Generation, d: Dim)
    requires root in l.budgets && NewWorker(l, w, root, s)
    requires 1 <= FreeSlots(l, w, root) <= Remaining(l, root, d) && Ceiling(l.budgets[root].authority, d).Some?
    ensures var share := Remaining(l, root, d) / FreeSlots(l, w, root);
      Part(Prepare(l, w, root, s, NONE, false), d) == Some(share)
      && Remaining(WithWorker(l, w, root, s, g), root, d) == Remaining(l, root, d) - share
  {
    var a, m := Prepare(l, w, root, s, NONE, false), NewMember(root, NONE, g);
    DefaultShare(l, w, root, s, d);
    ShareFits(Remaining(l, root, d), FreeSlots(l, w, root));
    BookedTotals(l, WithWorker(l, w, root, s, g), root, s, m, Allocated(m, a, true), root, d);
  }

  /** One worker prepared and admitted: what it leaves is enough for the slots still free. */
  lemma OneRound(l: Ledger, w: World, root: SessionId, s: SessionId, g: Generation)
    requires Calm(l, w, root) && NewWorker(l, w, root, s)
    requires 1 <= FreeSlots(l, w, root) && Leaves(l, root, FreeSlots(l, w, root))
    ensures var a, k := Prepare(l, w, root, s, NONE, false), WithWorker(l, w, root, s, g);
      && Read(l, w, root) == l
      && Admit(l, w, root, a, NONE, true, true, g) == Ok(k)
      && Calm(k, w, root) && SameGrant(l, k, root)
      && FreeSlots(k, w, root) == FreeSlots(l, w, root) - 1 && Leaves(k, root, FreeSlots(k, w, root))
  {
    var k := WithWorker(l, w, root, s, g);
    WorkerIsAdmitted(l, w, root, s, g);
    WorkerKeepsCalm(l, w, root, s, g);
    WorkerTakesSlot(l, w, root, s, g);
    forall d | Ceiling(l.budgets[root].authority, d).Some? ensures FreeSlots(k, w, root) <= Remaining(k, root, d) {
      WorkerTakesShare(l, w, root, s, g, d);
      ShareFits(Remaining(l, root, d), FreeSlots(l, w, root));
    }
  }

  // ----- successive workers -----

  /** Workers prepared and admitted one after another, each on what the other tables hold then and
      followed by usage reports. */
  datatype Rounds = NoRound | Round(world: World, worker: SessionId, generation: Generation, reports: Reports, rest: Rounds)

  function Count(rounds: Rounds): nat {
    match rounds
    case NoRound => 0
    case Round(_, _, _, _, rest) => 1 + Count(rest)
  }

  /** The shares of one dimension that the workers get, if every one of them is admitted. */
  ghost function Shares(l: Ledger, root: SessionId, d: Dim, rounds: Rounds): Option<seq<nat>>
    decreases rounds
  {
    match rounds
    case NoRound => Some([])
    case Round(w, s, g, reports, rest) =>
      var read := Read(l, w, root);
      if root !in read.budgets then None
      else
        var a := Prepare(read, w, root, s, NONE, false);
        var o := Admit(read, w, root, a, NONE, true, true, g);
        if o.Refused? then None
        else
          var others := Shares(Spend(o.ledger, reports), root, d, rest);
          if others.None? || Part(a, d).None? then None else Some([Part(a, d).value] + others.value)
  }

  /** The other tables hold the same of a session. */
  predicate SameSession(w: World, v: World, s: SessionId) {
    && (s in v.sessions <==> s in w.sessions) && (s in w.sessions ==> v.sessions[s] == w.sessions[s])
    && (s in v.reviewers <==> s in w.reviewers) && (s in v.stopping <==> s in w.stopping) && (s in v.unpriced <==> s in w.unpriced)
  }

  /** The other tables hold the same of the campaign's members, and anything of other sessions. */
  predicate SameMembers(l: Ledger, root: SessionId, w: World, v: World) {
    forall s :: s in l.members && l.members[s].root == root ==> SameSession(w, v, s)
  }

  lemma SameMembersSameStanding(l: Ledger, root: SessionId, w: World, v: World)
    requires SameMembers(l, root, w, v)
    ensures Calm(l, w, root) ==> Calm(l, v, root)
    ensures OccupiedSlots(l, v, root) == OccupiedSlots(l, w, root)
  {
    forall s | s in l.members && l.members[s].root == root
      ensures (s in EndedMembers(l, v, root) <==> s in EndedMembers(l, w, root)) && (ProvenNow(l, v, s) <==> ProvenNow(l, w, s))
      ensures Occupying(l, v, s) <==> Occupying(l, w, s)
    {
      assert SameSession(w, v, s);
    }
    assert AnyUnpriced(l, v, root) ==> AnyUnpriced(l, w, root) by {
      if AnyUnpriced(l, v, root) {
        var s :| s in l.members && l.members[s].root == root && s in v.unpriced;
        assert SameSession(w, v, s);
      }
    }
  }

  lemma SameRoom(l: Ledger, root: SessionId, w: World, v: World)
    requires root in l.budgets && Calm(l, w, root) && SameMembers(l, root, w, v)
    ensures Calm(l, v, root) && FreeSlots(l, v, root) == FreeSlots(l, w, root)
  {
    SameMembersSameStanding(l, root, w, v);
  }

  /** Each worker is new when its turn comes, what is reported in between is inside limits, and of the
      campaign's own members the other tables hold the same meanwhile. */
  ghost predicate Orderly(l: Ledger, w: World, root: SessionId, rounds: Rounds)
    decreases rounds
  {
    match rounds
    case NoRound => true
    case Round(v, s, g, reports, rest) =>
      && SameMembers(l, root, w, v) && NewWorker(l, v, root, s) && root in l.budgets
      && var k := WithWorker(l, v, root, s, g);
         AllInside(k, root, reports) && Orderly(Spend(k, reports), v, root, rest)
  }

  function Added(xs: seq<nat>): nat {
    if xs == [] then 0 else xs[0] + Added(xs[1..])
  }

  predicate AllWithin(xs: seq<nat>, low: nat, high: nat) {
    forall x :: x in xs ==> low <= x <= high
  }

  /** A share of `remaining` among `free` is at least the lower bound, and so is what it leaves. */
  lemma ShareAbove(remaining: nat, free: nat, low: nat)
    requires 1 <= free && low * free <= remaining
    ensures low <= remaining / free && low * (free - 1) <= remaining - remaining / free
  {
    var k := remaining / free;
    assert free * k <= remaining < free * k + free;
    Quotient(low, k, free);
    Ordered(low, k, free - 1);
    Distribute(k, free);
  }

  /** The same of the upper bound. */
  lemma ShareBelow(remaining: nat, free: nat, high: nat)
    requires 1 <= free && remaining <= high * free
    ensures remaining / free <= high && remaining - remaining / free <= high * (free - 1)
  {
    var k := remaining / free;
    assert free * k <= remaining < free * k + free;
    Quotient(k, high, free);
    if k < high {
      LeftBelow(remaining, free, k, high);
    } else {
      Distribute(high, free);
    }
  }

  lemma LeftBelow(remaining: nat, free: nat, k: nat, high: nat)
    requires 1 <= free && k < high && free * k <= remaining < free * k + free
    ensures remaining - k <= high * (free - 1)
  {
    calc {
      remaining - k;
      <=
      free * k - k + (free - 1);
      == { Distribute(k, free); }
      k * (free - 1) + (free - 1);
      ==
      (k + 1) * (free - 1);
      <= { Ordered(k + 1, high, free - 1); }
      high * (free - 1);
    }
  }

  lemma Quotient(x: nat, y: nat, free: nat)
    requires 1 <= free && x * free < free * y + free
    ensures x <= y
  {
    if y < x {
      Ordered(y + 1, x, free);
      assert false;
    }
  }

  lemma Ordered(x: nat, y: nat, n: nat)
    requires x <= y
    ensures x * n <= y * n
  {
  }

  lemma Distribute(x: nat, free: nat)
    requires 1 <= free
    ensures x * free == x * (free - 1) + x
  {
  }

  /** All of `left` handed out in `count` shares between the bounds. */
  predicate Handed(shares: Option<seq<nat>>, count: nat, left: nat, low: nat, high: nat) {
    shares.Some? && |shares.value| == count && Added(shares.value) == left && AllWithin(shares.value, low, high)
  }

  lemma HandedOne(x: nat, others: seq<nat>, count: nat, left: nat, low: nat, high: nat)
    requires Handed(Some(others), count, left, low, high) && low <= x <= high
    ensures Handed(Some([x] + others), count + 1, left + x, low, high)
  {
    assert ([x] + others)[1..] == others;
  }

  lemma SharesStep(l: Ledger, w: World, root: SessionId, d: Dim, s: SessionId, g: Generation, reports: Reports, rest: Rounds, x: nat)
    requires root in l.budgets && Read(l, w, root) == l
    requires Admit(l, w, root, Prepare(l, w, root, s, NONE, false), NONE, true, true, g) == Ok(WithWorker(l, w, root, s, g))
    requires Part(Prepare(l, w, root, s, NONE, false), d) == Some(x)
    requires Shares(Spend(WithWorker(l, w, root, s, g), reports), root, d, rest).Some?
    ensures Shares(l, root, d, Round(w, s, g, reports, rest)) ==
      Some([x] + Shares(Spend(WithWorker(l, w, root, s, g), reports), root, d, rest).value)
  {
  }

  /** What is left frames its shares: `left` over `count` lies between the bounds. */
  predicate Frames(left: nat, count: nat, low: nat, high: nat) {
    low * count <= left <= high * count
  }

  lemma NextFrames(left: nat, count: nat, low: nat, high: nat)
    requires Frames(left, count + 1, low, high)
    ensures var share := left / (count + 1);
      low <= share <= high && share <= left && Frames(left - share, count, low, high)
  {
    ShareAbove(left, count + 1, low);
    ShareBelow(left, count + 1, high);
  }

  /** What a round hands out, and what it leaves for the next. */
  lemma AfterRound(l: Ledger, w: World, root: SessionId, d: Dim, s: SessionId, g: Generation, reports: Reports, count: nat, low: nat, high: nat)
    returns (x: nat)
    requires Calm(l, w, root) && NewWorker(l, w, root, s) && AllInside(WithWorker(l, w, root, s, g), root, reports)
    requires FreeSlots(l, w, root) == count + 1 && Leaves(l, root, count + 1)
    requires Ceiling(l.budgets[root].authority, d).Some?
    requires Frames(Remaining(l, root, d), count + 1, low, high)
    ensures var j := Spend(WithWorker(l, w, root, s, g), reports);
      && Calm(j, w, root) && SameGrant(l, j, root)
      && FreeSlots(j, w, root) == count && Leaves(j, root, count)
      && Remaining(l, root, d) == x + Remaining(j, root, d)
      && Frames(Remaining(j, root, d), count, low, high)
    ensures low <= x <= high && Part(Prepare(l, w, root, s, NONE, false), d) == Some(x)
  {
    var k := WithWorker(l, w, root, s, g);
    OneRound(l, w, root, s, g);
    WorkerTakesShare(l, w, root, s, g, d);
    SpendingKeepsStanding(k, w, root, reports);
    StandingLeaves(k, Spend(k, reports), w, root, count);
    NextFrames(Remaining(l, root, d), count, low, high);
    x := Part(Prepare(l, w, root, s, NONE, false), d).value;
  }

  /** A round's share and the shares of the rounds after it, taken together. */
  lemma RoundHands(l: Ledger, w: World, root: SessionId, d: Dim, s: SessionId, g: Generation, reports: Reports, rest: Rounds,
                   count: nat, x: nat, left: nat, low: nat, high: nat)
    requires Calm(l, w, root) && NewWorker(l, w, root, s)
    requires FreeSlots(l, w, root) == count + 1 && Leaves(l, root, count + 1)
    requires Part(Prepare(l, w, root, s, NONE, false), d) == Some(x) && low <= x <= high
    requires Handed(Shares(Spend(WithWorker(l, w, root, s, g), reports), root, d, rest), count, left, low, high)
    ensures Handed(Shares(l, root, d, Round(w, s, g, reports, rest)), count + 1, left + x, low, high)
  {
    OneRound(l, w, root, s, g);
    SharesStep(l, w, root, d, s, g, reports, rest, x);
    HandedOne(x, Shares(Spend(WithWorker(l, w, root, s, g), reports), root, d, rest).value, count, left, low, high);
  }

  /** Between bounds that frame what is left per free slot, every worker is admitted with a share
      between them, and together they take all of it. */
  lemma {:induction false} DividedBetween(l: Ledger, w: World, root: SessionId, d: Dim, rounds: Rounds, low: nat, high: nat)
    requires Calm(l, w, root) && Orderly(l, w, root, rounds)
    requires FreeSlots(l, w, root) == Count(rounds) && Leaves(l, root, Count(rounds))
    requires Ceiling(l.budgets[root].authority, d).Some?
    requires Frames(Remaining(l, root, d), Count(rounds), low, high)
    ensures Handed(Shares(l, root, d, rounds), Count(rounds), Remaining(l, root, d), low, high)
    decreases rounds
  {
    match rounds
    case NoRound =>
    case Round(v, s, g, reports, rest) =>
      SameRoom(l, root, w, v);
      var x := AfterRound(l, v, root, d, s, g, reports, Count(rest), low, high);
      var j := Spend(WithWorker(l, v, root, s, g), reports);
      DividedBetween(j, v, root, d, rest, low, high);
      RoundHands(l, v, root, d, s, g, reports, rest, Count(rest), x, Remaining(j, root, d), low, high);
  }

  lemma StandingLeaves(k: Ledger, j: Ledger, w: World, root: SessionId, least: nat)
    requires SameStanding(k, j, w, root) && root in k.budgets && Leaves(k, root, least)
    ensures Leaves(j, root, least) && FreeSlots(j, w, root) == FreeSlots(k, w, root)
    ensures forall d :: Ceiling(k.budgets[root].authority, d).Some? ==> Remaining(j, root, d) == Remaining(k, root, d)
  {
    forall d | Ceiling(k.budgets[root].authority, d).Some? ensures Remaining(j, root, d) == Remaining(k, root, d) {
      assert Total(j, root, d) == Total(k, root, d);
    }
  }

  /** Fair division: as many new workers as there are free slots are all admitted with their default
      allocations, whatever earlier ones spend inside their limits and whatever else happens outside the
      campaign. Their shares differ by at most one and together are exactly what was unreserved. */
  lemma FairDivision(l: Ledger, w: World, root: SessionId, d: Dim, rounds: Rounds, left: nat, free: nat)
    requires Calm(l, w, root) && Orderly(l, w, root, rounds)
    requires free == FreeSlots(l, w, root) == Count(rounds) && 1 <= free && Leaves(l, root, free)
    requires Ceiling(l.budgets[root].authority, d).Some? && left == Remaining(l, root, d)
    ensures Handed(Shares(l, root, d, rounds), free, left, Floor(left, free), Ceil(left, free))
  {
    RoundedUp(left, free);
    DividedBetween(l, w, root, d, rounds, Floor(left, free), Ceil(left, free));
  }

  function Floor(n: nat, free: nat): nat { if free == 0 then 0 else n / free }
  function Ceil(n: nat, free: nat): nat { if free == 0 then 0 else (n + free - 1) / free }

  lemma RoundedUp(n: nat, free: nat)
    requires 1 <= free
    ensures Frames(n, free, Floor(n, free), Ceil(n, free))
  {
    var k := (n + free - 1) / free;
    assert free * k <= n + free - 1 < free * k + free;
    assert k * free == free * k;
  }

  // ----- a reviewer's share -----

  /** A reviewer takes no slot and at most an equal claimant's share, counting at least two: it leaves
      at least half of what it found, and as much as it took for each free slot. */
  lemma ReviewerLeavesRoom(l: Ledger, w: World, root: SessionId, s: SessionId, requested: Limits, user: Limits, g: Generation, d: Dim)
    requires Read(l, w, root) == l && root in l.budgets && Ceiling(l.budgets[root].authority, d).Some?
    requires s !in l.members && s in w.reviewers
    requires Admit(l, w, root, Prepare(l, w, root, s, requested, true), user, true, true, g).Ok?
    ensures var a := Prepare(l, w, root, s, requested, true);
      var k := Admit(l, w, root, a, user, true, true, g).ledger;
      && Part(a, d).Some?
      && Remaining(l, root, d) <= 2 * Remaining(k, root, d)
      && FreeSlots(k, w, root) == FreeSlots(l, w, root)
      && Part(a, d).value * FreeSlots(k, w, root) <= Remaining(k, root, d)
  {
    var a := Prepare(l, w, root, s, requested, true);
    AdmitBooks(l, w, root, a, user, true, true, g);
    ReviewerBooked(l, Admit(l, w, root, a, user, true, true, g).ledger, w, root, s, requested, user, g, d);
  }

  lemma ReviewerBooked(l: Ledger, k: Ledger, w: World, root: SessionId, s: SessionId, requested: Limits, user: Limits, g: Generation, d: Dim)
    requires root in l.budgets && Ceiling(l.budgets[root].authority, d).Some? && s !in l.members && s in w.reviewers
    requires AdmissionError(l, w, root, Prepare(l, w, root, s, requested, true), user, true, g).None?
    requires Booked(l, k, w, root, Prepare(l, w, root, s, requested, true), user, true, g)
    ensures var a := Prepare(l, w, root, s, requested, true);
      && Part(a, d).Some?
      && Remaining(l, root, d) <= 2 * Remaining(k, root, d)
      && FreeSlots(k, w, root) == FreeSlots(l, w, root)
      && Part(a, d).value * FreeSlots(k, w, root) <= Remaining(k, root, d)
  {
    var a, m := Prepare(l, w, root, s, requested, true), NewMember(root, user, g);
    ReviewerPart(l, w, root, s, requested, d);
    AllocatedMeter(l, w, root, a, user, true, true, g, d);
    BookedTotals(l, k, root, s, m, Allocated(m, a, true), root, d);
    assert Total(k, root, d) <= Total(l, root, d) + Part(a, d).value;
    ReviewerSlots(l, k, w, root, s, requested, user, g);
    ClaimantLeaves(Remaining(l, root, d), Part(a, d).value, FreeSlots(l, w, root));
  }

  lemma ReviewerPart(l: Ledger, w: World, root: SessionId, s: SessionId, requested: Limits, d: Dim)
    requires root in l.budgets && Ceiling(l.budgets[root].authority, d).Some? && s !in l.members
    ensures var part := Part(Prepare(l, w, root, s, requested, true), d);
      part.Some? && part.value <= Remaining(l, root, d) / Max(2, FreeSlots(l, w, root) + 1)
  {
  }

  lemma ReviewerSlots(l: Ledger, k: Ledger, w: World, root: SessionId, s: SessionId, requested: Limits, user: Limits, g: Generation)
    requires root in l.budgets && s !in l.members && s in w.reviewers
    requires Booked(l, k, w, root, Prepare(l, w, root, s, requested, true), user, true, g)
    ensures root in k.budgets && FreeSlots(k, w, root) == FreeSlots(l, w, root)
  {
    forall t | t in l.members ensures t in OccupiedSlots(k, w, root) <==> t in OccupiedSlots(l, w, root) {
      assert k.members[t] == l.members[t];
      assert t in k.checkpoints <==> t in l.checkpoints;
    }
    assert OccupiedSlots(k, w, root) == OccupiedSlots(l, w, root);
  }

  lemma ClaimantLeaves(left: nat, part: nat, free: nat)
    requires part <= left / Max(2, free + 1)
    ensures part <= left && left <= 2 * (left - part) && part * free <= left - part
  {
    var claimants := Max(2, free + 1);
    assert claimants * (left / claimants) <= left;
    Ordered(part, left / claimants, claimants);
    Ordered(2, claimants, part);
    Ordered(free + 1, claimants, part);
    assert part * claimants == claimants * part && part * (free + 1) == part * free + part;
  }

  // ----- the first division -----

  /** A sum is at most a bound times the number of rows that may reach it. */
  lemma {:induction false} SumAtMost(ms: map<SessionId, Member>, f: Member -> int, ids: set<SessionId>, bound: nat)
    requires forall s :: s in ms ==> f(ms[s]) <= (if s in ids then bound else 0)
    ensures Sum(ms, f) <= |ids| * bound
    decreases ids
  {
    if ids == {} {
      assert Sum(map[], f) == 0;
      forall s ensures At(ms, s, f) <= At(map[], s, f) {}
      SumMonotone(ms, map[], f);
    } else {
      var s :| s in ids;
      SumWithout(ms, s, f);
      SumAtMost(ms - {s}, f, ids - {s}, bound);
      Distribute2(|ids|, bound);
    }
  }

  lemma Distribute2(n: nat, bound: nat)
    requires 1 <= n
    ensures n * bound == (n - 1) * bound + bound
  {
  }

  /** The share of a first division. */
  ghost function FirstShare(before: Ledger, used: Ledger, root: SessionId, authority: Authority, d: Dim): nat {
    Unused(used, root, authority, d) / Max(1, |ActiveMembers(before, root)| + OrElse(authority.concurrency, Some(1)).value)
  }

  /** Reading leaves the rows of members that stay active alone, and activates none. */
  lemma ReadLeavesActive(l: Ledger, w: World, root: SessionId, s: SessionId)
    requires s in Read(l, w, root).members && Read(l, w, root).members[s].active
    ensures s in l.members && Read(l, w, root).members[s] == l.members[s]
  {
    StandingKeepsRows(SettleAll(l, w, root, EndedMembers(l, w, root)), w, root);
  }

  lemma DividedRow(before: Ledger, used: Ledger, root: SessionId, authority: Authority, d: Dim, s: SessionId)
    requires Ceiling(authority, d).Some? && s in used.members
    requires used.members[s].active ==> s in before.members && used.members[s] == before.members[s]
    ensures UnspentIn(root, d)(Divided(before, used, root, authority, true).members[s])
      <= (if s in ActiveMembers(before, root) then FirstShare(before, used, root, authority, d) else 0)
  {
  }

  lemma DividedSpends(before: Ledger, used: Ledger, root: SessionId, authority: Authority, d: Dim)
    ensures Actual(Divided(before, used, root, authority, true), root, d) == Actual(used, root, d)
  {
    SumSame(Divided(before, used, root, authority, true).members, used.members, SpentIn(root, d));
  }

  lemma UnspentFits(k: Ledger, root: SessionId, d: Dim, live: set<SessionId>, share: nat, claimants: nat, unused: nat)
    requires forall s :: s in k.members ==> UnspentIn(root, d)(k.members[s]) <= (if s in live then share else 0)
    requires |live| <= claimants && 1 <= claimants && share == unused / claimants
    ensures Outstanding(k, root, d) <= unused
  {
    SumAtMost(k.members, UnspentIn(root, d), live, share);
    SharesFit(unused, |live|, claimants);
  }

  lemma SharesFit(unused: nat, live: nat, claimants: nat)
    requires live <= claimants && 1 <= claimants
    ensures live * (unused / claimants) <= unused
  {
    Ordered(live, claimants, unused / claimants);
    assert claimants * (unused / claimants) <= unused;
  }

  /** A first grant divides what is not spent among its live members and as many future workers: what
      it reserves always fits, so it is refused only for spend, accounting or concurrency. */
  lemma FirstDivisionFits(l: Ledger, w: World, root: SessionId, authority: Authority, d: Dim)
    requires Ceiling(authority, d).Some?
    ensures var used := Read(l, w, root);
      Total(Divided(l, used, root, authority, true), root, d) <=
        (if Actual(used, root, d) < Ceiling(authority, d).value then Ceiling(authority, d).value else Actual(used, root, d))
  {
    var used := Read(l, w, root);
    var k := Divided(l, used, root, authority, true);
    forall s | s in k.members
      ensures UnspentIn(root, d)(k.members[s]) <= (if s in ActiveMembers(l, root) then FirstShare(l, used, root, authority, d) else 0)
    {
      if used.members[s].active { ReadLeavesActive(l, w, root, s); }
      DividedRow(l, used, root, authority, d, s);
    }
    DividedTotal(l, used, k, root, authority, d);
  }

  lemma DividedTotal(before: Ledger, used: Ledger, k: Ledger, root: SessionId, authority: Authority, d: Dim)
    requires k == Divided(before, used, root, authority, true) && Ceiling(authority, d).Some?
    requires forall s :: s in k.members ==>
      UnspentIn(root, d)(k.members[s]) <= (if s in ActiveMembers(before, root) then FirstShare(before, used, root, authority, d) else 0)
    ensures Total(k, root, d) <=
      (if Actual(used, root, d) < Ceiling(authority, d).value then Ceiling(authority, d).value else Actual(used, root, d))
  {
    var live := ActiveMembers(before, root);
    var claimants := Max(1, |live| + OrElse(authority.concurrency, Some(1)).value);
    UnspentFits(k, root, d, live, FirstShare(before, used, root, authority, d), claimants, Unused(used, root, authority, d));
    TotalSplits(k, root, d);
    DividedSpends(before, used, root, authority, d);
  }
}
