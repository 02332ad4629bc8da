/** The ledger as its tables: every operation updates rows in place, and is proved to leave exactly the
    value that the corresponding function of `CampaignBudget` gives. */
module CampaignLedger {
  import opened CampaignBudget
  import opened CampaignTotals
  import opened CampaignRuns
  import opened Options

  // ----- settling one member after another -----

  lemma OneMoreMember(l: Ledger, done: set<SessionId>, s: SessionId)
    requires done + {s} <= l.members.Keys && done + {s} <= l.checkpoints.Keys && s !in done
    ensures SettledMembers(l.members, l.checkpoints, done)[s := SettledMember(l.members[s], l.checkpoints[s].cost, 0)]
         == SettledMembers(l.members, l.checkpoints, done + {s})
  {
  }

  lemma OneMoreRow(l: Ledger, done: set<SessionId>, s: SessionId)
    requires done + {s} <= l.members.Keys && done + {s} <= l.checkpoints.Keys && s !in done
    ensures var table := SettledTable(l.members, l.checkpoints, l.settlements, done);
      table[s := Recorded(RowsIn(table, s), FinalRow(l.members[s], l.checkpoints[s]))] ==
      SettledTable(l.members, l.checkpoints, l.settlements, done + {s})
  {
  }

  /** Settling one more member extends what was settled so far by exactly that member. */
  lemma SettleOneMore(l: Ledger, done: set<SessionId>, s: SessionId)
    requires done + {s} <= l.members.Keys && done + {s} <= l.checkpoints.Keys && s !in done
    ensures Settle(SettleEach(l, done), s, Final(l.checkpoints[s]), l.checkpoints[s].cost, 0) == SettleEach(l, done + {s})
  {
    OneMoreMember(l, done, s);
    OneMoreRow(l, done, s);
    assert l.checkpoints - done - {s} == l.checkpoints - (done + {s});
  }

  /** What settling others leaves for `s` to be decided by. */
  lemma OthersDecideNothing(l: Ledger, k: Ledger, w: World, s: SessionId)
    requires s in l.members && s in k.members && k.members[s] == l.members[s]
    requires s in l.checkpoints && s in k.checkpoints && k.checkpoints[s] == l.checkpoints[s]
    requires SameAuthority(l, k) && k.releases == l.releases
    ensures ProvenNow(k, w, s) <==> ProvenNow(l, w, s)
    ensures Unaccountable(k, w, s) <==> Unaccountable(l, w, s)
  {
  }

  lemma DoneLeaves(l: Ledger, w: World, root: SessionId, done: set<SessionId>, s: SessionId)
    requires s in l.members && s in l.checkpoints && s !in done
    ensures var k := SettleAll(l, w, root, done);
      && s in k.members && k.members[s] == l.members[s]
      && s in k.checkpoints && k.checkpoints[s] == l.checkpoints[s]
      && SameAuthority(l, k) && k.releases == l.releases
  {
  }

  /** One pass of the loop that settles ended members. */
  lemma SettleStep(l: Ledger, w: World, root: SessionId, done: set<SessionId>, s: SessionId)
    requires s in EndedMembers(l, w, root) && s !in done && done <= EndedMembers(l, w, root)
    ensures s in w.sessions
    ensures var k := SettleAll(l, w, root, done);
      SettleCheckpoint(k, w, s, w.sessions[s].historyEpoch, w.sessions[s].hydratedSeq).0 == SettleAll(l, w, root, done + {s})
  {
    var k := SettleAll(l, w, root, done);
    DoneLeaves(l, w, root, done, s);
    OthersDecideNothing(l, k, w, s);
    var ids := done + {s};
    if !ProvenNow(l, w, s) {
      assert Settleable(l, w, ids) == Settleable(l, w, done);
      assert AnyBlocked(l, w, ids) <==> AnyBlocked(l, w, done);
    } else if Unaccountable(l, w, s) {
      assert Settleable(l, w, ids) == Settleable(l, w, done);
      assert AnyBlocked(l, w, ids);
      StopTwice(l, root, Settleable(l, w, done));
    } else {
      assert Settleable(l, w, ids) == Settleable(l, w, done) + {s};
      assert AnyBlocked(l, w, ids) <==> AnyBlocked(l, w, done);
      SettleOneMore(if AnyBlocked(l, w, ids) then Stop(l, root, AccountingUnavailable) else l, Settleable(l, w, done), s);
    }
  }

  /** A stop commutes with settlements, and a second one changes nothing. */
  lemma StopTwice(l: Ledger, root: SessionId, done: set<SessionId>)
    requires done <= l.members.Keys && done <= l.checkpoints.Keys
    ensures Stop(SettleEach(l, done), root, AccountingUnavailable) == SettleEach(Stop(l, root, AccountingUnavailable), done)
    ensures Stop(Stop(l, root, AccountingUnavailable), root, AccountingUnavailable) == Stop(l, root, AccountingUnavailable)
  {
  }

  lemma SettleNone(l: Ledger, w: World, root: SessionId)
    ensures SettleAll(l, w, root, {}) == l
  {
    assert Settleable(l, w, {}) == {};
    var k := SettleAll(l, w, root, {});
    assert k.members == l.members && k.settlements == l.settlements && k.checkpoints == l.checkpoints;
  }

  /** The rows a scan has passed. */
  lemma SeenOneMore(ms: map<SessionId, Member>, seen: map<SessionId, Member>, s: SessionId, f: Member -> int)
    requires s in ms && s !in seen
    ensures Sum(seen[s := ms[s]], f) == Sum(seen, f) + f(ms[s])
  {
    SumUpdate(seen, s, ms[s], f);
  }

  // ----- the tables -----

  /** Spend, unspent reservations and what is left of one ceiling. */
  datatype Figures = Figures(actual: nat, outstanding: nat, remaining: Option<nat>)

  datatype View = View(authority: Authority, state: State, cost: Figures, tools: Figures, occupied: nat)

  ghost predicate Shows(f: Figures, l: Ledger, root: SessionId, d: Dim)
    requires root in l.budgets
  {
    && f.actual == Actual(l, root, d) && f.outstanding == Outstanding(l, root, d)
    && f.remaining == (if Ceiling(l.budgets[root].authority, d).None? then None else Some(Remaining(l, root, d)))
  }

  /** A view states what its ledger holds for the campaign. */
  ghost predicate Describes(v: View, l: Ledger, w: World, root: SessionId) {
    && root in l.budgets && v.authority == l.budgets[root].authority && v.state == l.budgets[root].state
    && Shows(v.cost, l, root, Cost) && Shows(v.tools, l, root, Tools)
    && v.occupied == |OccupiedSlots(l, w, root)|
  }

  class CampaignBudgetLedger {
    var budgets: map<SessionId, Budget>
    var members: map<SessionId, Member>
    var calls: map<SessionId, set<string>>
    var checkpoints: map<SessionId, Checkpoint>
    var settlements: map<SessionId, seq<Settlement>>
    var releases: map<(SessionId, Generation), SlotRelease>

    /** All tables as one value, also what a savepoint keeps. */
    function Tables(): Ledger
      reads this
    {
      Ledger(budgets, members, calls, checkpoints, settlements, releases)
    }

    constructor ()
      ensures Tables() == EMPTY
    {
      budgets, members, calls := map[], map[], map[];
      checkpoints, settlements, releases := map[], map[], map[];
    }

    method RollBack(saved: Ledger)
      modifies this
      ensures Tables() == saved
    {
      budgets, members, calls := saved.budgets, saved.members, saved.calls;
      checkpoints, settlements, releases := saved.checkpoints, saved.settlements, saved.releases;
    }

    method StopAllowance(root: SessionId, state: State)
      modifies this
      ensures Tables() == Stop(old(Tables()), root, state)
    {
      if root in budgets {
        Halt(root, state);
      }
    }

    method WriteSettlement(s: SessionId, evidence: Evidence, cost: nat, tools: nat)
      requires s in members
      modifies this
      ensures Tables() == Settle(old(Tables()), s, evidence, cost, tools)
    {
      var m := members[s];
      m := m.(cost := m.cost.Charge(m.active, cost), tools := m.tools.Charge(m.active, tools), active := false);
      var rows := if s in settlements then settlements[s] else [];
      settlements := settlements[s := Recorded(rows, Settlement(evidence, m.cost.spent, m.tools.spent))];
      members := members[s := m];
      checkpoints := checkpoints - {s};
    }

    method SettleFromCheckpoint(w: World, s: SessionId, historyEpoch: Option<nat>, hydratedSeq: nat) returns (settled: bool)
      modifies this
      ensures (Tables(), settled) == SettleCheckpoint(old(Tables()), w, s, historyEpoch, hydratedSeq)
    {
      if !Proven(Tables(), w, s, historyEpoch, hydratedSeq) {
        return false;
      }
      if CostCeiling(Tables(), members[s].root) && s in w.unpriced {
        StopAllowance(members[s].root, AccountingUnavailable);
        return false;
      }
      WriteSettlement(s, Final(checkpoints[s]), checkpoints[s].cost, 0);
      return true;
    }

    /** Settles every ended member whose final checkpoint its hydrated history covers, in any order. */
    method SettleEnded(w: World, root: SessionId)
      modifies this
      ensures Tables() == SettleAll(old(Tables()), w, root, EndedMembers(old(Tables()), w, root))
    {
      ghost var l := Tables();
      var ended := EndedMembers(Tables(), w, root);
      ghost var done: set<SessionId> := {};
      var todo := ended;
      SettleNone(l, w, root);
      while todo != {}
        invariant done + todo == ended && done !! todo
        invariant Tables() == SettleAll(l, w, root, done)
        decreases todo
      {
        var s :| s in todo;
        SettleStep(l, w, root, done, s);
        var _ := SettleFromCheckpoint(w, s, w.sessions[s].historyEpoch, w.sessions[s].hydratedSeq);
        done := done + {s};
        todo := todo - {s};
      }
    }

    /** Adds up one dimension of a campaign's members. */
    method AddUp(root: SessionId, d: Dim) returns (actual: nat, outstanding: nat)
      ensures actual == Actual(Tables(), root, d) && outstanding == Outstanding(Tables(), root, d)
    {
      var todo := members.Keys;
      ghost var seen: map<SessionId, Member> := map[];
      actual, outstanding := 0, 0;
      while todo != {}
        invariant todo <= members.Keys && seen.Keys == members.Keys - todo
        invariant forall s :: s in seen ==> seen[s] == members[s]
        invariant actual == Sum(seen, SpentIn(root, d)) && outstanding == Sum(seen, UnspentIn(root, d))
        decreases todo
      {
        var s :| s in todo;
        SeenOneMore(members, seen, s, SpentIn(root, d));
        SeenOneMore(members, seen, s, UnspentIn(root, d));
        if members[s].root == root {
          var meter := MeterOf(members[s], d);
          actual := actual + meter.spent;
          if members[s].active && meter.limit.Some? && meter.limit.value > meter.spent {
            outstanding := outstanding + (meter.limit.value - meter.spent);
          }
        }
        seen := seen[s := members[s]];
        todo := todo - {s};
      }
      assert seen == members;
    }

    method FiguresFor(root: SessionId, d: Dim) returns (f: Figures)
      requires root in budgets
      ensures Shows(f, Tables(), root, d)
    {
      var ceiling := Ceiling(budgets[root].authority, d);
      var actual, outstanding := AddUp(root, d);
      TotalSplits(Tables(), root, d);
      f := Figures(actual, outstanding,
                   if ceiling.None? then None
                   else Some(if ceiling.value <= actual + outstanding then 0 else ceiling.value - actual - outstanding));
    }

    /** Both figures of a campaign, and whether it reached a ceiling. */
    method AddUpCampaign(root: SessionId) returns (cost: Figures, tools: Figures, reached: bool)
      requires root in budgets
      ensures Shows(cost, Tables(), root, Cost) && Shows(tools, Tables(), root, Tools)
      ensures reached <==> Reached(Tables(), root, Cost) || Reached(Tables(), root, Tools)
    {
      var authority := budgets[root].authority;
      cost := FiguresFor(root, Cost);
      tools := FiguresFor(root, Tools);
      reached := (authority.costUsd.Some? && cost.actual >= authority.costUsd.value) || (authority.toolCalls.Some? && tools.actual >= authority.toolCalls.value);
    }

    method NoteUnpricedUsage(root: SessionId, observed: bool)
      requires root in budgets
      modifies `budgets
      ensures budgets == old(budgets)[root := Noted(old(budgets)[root], observed)]
    {
      if observed {
        budgets := budgets[root := budgets[root].(costUnpriced := true)];
      } else {
        assert budgets[root := budgets[root]] == budgets;
      }
    }

    method Halt(root: SessionId, state: State)
      requires root in budgets
      modifies `budgets
      ensures budgets == old(budgets)[root := Halted(old(budgets)[root], state)]
    {
      if budgets[root].state.Active? {
        budgets := budgets[root := budgets[root].(state := state)];
      } else {
        assert budgets[root := budgets[root]] == budgets;
      }
    }

    method Price(root: SessionId, observed: bool)
      requires root in budgets
      modifies `budgets
      ensures budgets == old(budgets)[root := Priced(old(budgets)[root], observed)]
    {
      NoteUnpricedUsage(root, observed);
      if budgets[root].costUnpriced && budgets[root].authority.costUsd.Some? {
        Halt(root, AccountingUnavailable);
      }
    }

    /** Adds a campaign up, and stops it when it is unaccountable or used up. */
    method BringUpToDate(w: World, root: SessionId) returns (cost: Figures, tools: Figures)
      requires root in budgets
      modifies `budgets
      ensures Tables() == Standing(old(Tables()), w, root) && root in budgets
      ensures Shows(cost, old(Tables()), root, Cost) && Shows(tools, old(Tables()), root, Tools)
    {
      ghost var l := Tables();
      var observed := AnyUnpriced(Tables(), w, root);
      Price(root, observed);
      ghost var k := Tables();
      assert k.budgets[root].authority == l.budgets[root].authority;
      var reached;
      cost, tools, reached := AddUpCampaign(root);
      ShowsAlike(k, l, root, cost, Cost);
      ShowsAlike(k, l, root, tools, Tools);
      if reached {
        Halt(root, Exhausted);
      }
      StandingSteps(l, Tables(), w, root, observed, reached);
    }

    /** The campaign's view: ended members settled first, then its standing brought up to date. */
    method ReadAllowance(w: World, root: SessionId) returns (v: Option<View>)
      modifies this
      ensures Tables() == Read(old(Tables()), w, root)
      ensures v.None? <==> root !in Tables().budgets
      ensures v.Some? ==> Describes(v.value, Tables(), w, root)
    {
      SettleEnded(w, root);
      if root !in budgets {
        return None;
      }
      ghost var l := Tables();
      var cost, tools := BringUpToDate(w, root);
      StandingKeepsRows(l, w, root);
      StandingKeepsAuthority(l, w, root);
      ShowsAlike(l, Tables(), root, cost, Cost);
      ShowsAlike(l, Tables(), root, tools, Tools);
      return Some(View(budgets[root].authority, budgets[root].state, cost, tools, |OccupiedSlots(Tables(), w, root)|));
    }

    // ----- admission -----

    /** The checks of an admission against a view just read. */
    method CheckAdmission(w: World, v: Option<View>, root: SessionId, a: Allocation, user: Limits, launch: bool, generation: Generation)
      returns (refusal: Option<Refusal>)
      requires v.None? <==> root !in budgets
      requires v.Some? ==> Describes(v.value, Tables(), w, root)
      ensures refusal == AdmissionError(Tables(), w, root, a, user, launch, generation)
    {
      if v.None? || !v.value.state.Active? {
        return Some(Unavailable);
      }
      var s, limit := a.session, v.value.authority.concurrency;
      if s in members && members[s].root != root {
        return Some(OtherAllowance);
      }
      if s !in w.reviewers && launch && !(s in members && Occupying(Tables(), w, s)) && s != root && limit.Some? && v.value.occupied >= limit.value {
        return Some(ConcurrencyReached);
      }
      var m := RowFor(Tables(), root, s, user, generation);
      refusal := CheckDim(v.value.cost, root, m, a, Cost);
      if refusal.None? {
        refusal := CheckDim(v.value.tools, root, m, a, Tools);
      }
    }

    method CheckDim(f: Figures, root: SessionId, m: Member, a: Allocation, d: Dim) returns (refusal: Option<Refusal>)
      requires root in budgets && Shows(f, Tables(), root, d)
      ensures refusal == DimError(Tables(), root, m, a, d)
    {
      var meter := MeterOf(m, d);
      var requested := OrElse(if d.Cost? then a.costUsd else a.toolCalls, meter.limit);
      var ceiling := Ceiling(budgets[root].authority, d);
      var remaining := if f.remaining.Some? then f.remaining.value else 0;
      var prior := if m.active && meter.limit.Some? && meter.limit.value > meter.spent then meter.limit.value - meter.spent else 0;
      if requested.Some? && (requested.value < meter.spent || (meter.userLimit.Some? && requested.value > meter.userLimit.value)) {
        return Some(TighterCeiling);
      }
      if ceiling.Some? && (requested.None? || requested.value <= meter.spent || requested.value - meter.spent > remaining + prior) {
        return Some(ExceedsUnreserved);
      }
      return None;
    }

    /** Reserves an allocation, or rolls back and says why not. */
    method AdmitMember(w: World, root: SessionId, a: Allocation, user: Limits, activate: bool, launch: bool, generation: Generation)
      returns (refusal: Option<Refusal>)
      modifies this
      ensures match Admit(old(Tables()), w, root, a, user, activate, launch, generation)
        case Ok(k) => refusal.None? && Tables() == k
        case Refused(reason) => refusal == Some(reason) && Tables() == old(Tables())
    {
      var saved := Tables();
      var v := ReadAllowance(w, root);
      refusal := CheckAdmission(w, v, root, a, user, launch, generation);
      if refusal.Some? {
        RollBack(saved);
        return;
      }
      WriteAllocation(root, a, user, activate, generation);
      var observed := AnyUnpriced(Tables(), w, root);
      NoteUnpricedUsage(root, observed);
    }

    method WriteAllocation(root: SessionId, a: Allocation, user: Limits, activate: bool, generation: Generation)
      modifies this
      ensures Tables() == Admitted(old(Tables()), root, a, user, activate, generation)
    {
      var s := a.session;
      if s !in members {
        members := members[s := Member(root, Meter(0, None, user.costUsd, 0), Meter(0, None, user.toolCalls, 0), false, generation, None, None, None)];
      }
      var m := members[s];
      var cost, tools := OrElse(a.costUsd, m.cost.limit), OrElse(a.toolCalls, m.tools.limit);
      members := members[s := m.(cost := m.cost.(limit := cost), tools := m.tools.(limit := tools), active := activate)];
      if activate {
        checkpoints := checkpoints - {s};
      }
    }

    /** A claimant's part of one dimension. */
    method ShareFrom(f: Figures, root: SessionId, d: Dim, free: nat, reviewer: bool) returns (share: nat)
      requires root in budgets && Shows(f, Tables(), root, d)
      ensures share == Share(Remaining(Tables(), root, d), free, reviewer)
    {
      var slots := if reviewer then Max(2, free + 1) else Max(1, free);
      share := (if f.remaining.Some? then f.remaining.value else 0) / slots;
    }

    /** The default allocation of a session, from a view just read. */
    method OfferFrom(w: World, v: View, root: SessionId, s: SessionId, requested: Limits, reviewer: bool) returns (a: Allocation)
      requires Describes(v, Tables(), w, root)
      ensures a == Prepare(Tables(), w, root, s, requested, reviewer)
    {
      var limit := if v.authority.concurrency.Some? then v.authority.concurrency.value else 1;
      var free := if limit <= v.occupied then 0 else limit - v.occupied;
      var prior := if s in members then Limits(members[s].cost.limit, members[s].tools.limit) else Limits(None, None);
      var cost := ShareFrom(v.cost, root, Cost, free, reviewer);
      var tools := ShareFrom(v.tools, root, Tools, free, reviewer);
      return Allocation(s, Offer(v.authority.costUsd, requested.costUsd, prior.costUsd, cost, reviewer),
                        Offer(v.authority.toolCalls, requested.toolCalls, prior.toolCalls, tools, reviewer));
    }

    method PrepareAllocation(w: World, root: SessionId, s: SessionId, requested: Limits, reviewer: bool) returns (r: Option<Allocation>)
      modifies this
      ensures Tables() == Read(old(Tables()), w, root)
      ensures if Open(Tables(), root) then r == Some(Prepare(Tables(), w, root, s, requested, reviewer)) else r.None?
    {
      var v := ReadAllowance(w, root);
      if v.None? || !v.value.state.Active? {
        return None;
      }
      var a := OfferFrom(w, v.value, root, s, requested, reviewer);
      return Some(a);
    }

    // ----- authorization -----

    /** Enrolls the root's tree, one row after another. */
    method EnrollTree(root: SessionId, tree: seq<TreeRow>, resumed: bool)
      modifies this
      ensures Tables() == Enroll(old(Tables()), root, tree, resumed)
    {
      ghost var l := Tables();
      for i := 0 to |tree|
        invariant Tables() == Enroll(l, root, tree[..i], resumed)
      {
        assert tree[..i + 1][..i] == tree[..i];
        EnrollOne(root, tree[i], resumed);
      }
      assert tree[..|tree|] == tree;
    }

    method EnrollOne(root: SessionId, row: TreeRow, resumed: bool)
      modifies this
      ensures Tables() == EnrollRow(old(Tables()), root, row, resumed)
    {
      var s := row.session;
      var m := if s in members then members[s] else EnrolledMember(root, row);
      if resumed {
        var again := !m.active && !row.ended;
        m := m.(cost := Resume(m.cost, row.costLimit), tools := Resume(m.tools, row.toolLimit));
        if again {
          m := m.(active := true, generation := row.renewed);
          checkpoints := checkpoints - {s};
        }
      }
      members := members[s := m];
      calls := calls[s := (if s in calls then calls[s] else {}) + row.calls];
    }

    /** Gives every live member without a finite reservation its own tighter limit, or a share of what
        is free. `was` holds the rows as they were when the members were listed. */
    method DivideRows(was: map<SessionId, Member>, live: set<SessionId>, authority: Authority, first: bool, freeCost: nat, freeTools: nat)
      requires live <= was.Keys
      modifies `members
      ensures members == DividedRows(old(members), was, live, authority, first, freeCost, freeTools, Claimants(live, authority))
    {
      var claimants := Claimants(live, authority);
      ghost var ms := members;
      ghost var done: set<SessionId> := {};
      DivideNone(ms, was, authority, first, freeCost, freeTools, claimants);
      var todo := live;
      while todo != {}
        invariant done + todo == live && done !! todo
        invariant members == DividedRows(ms, was, done, authority, first, freeCost, freeTools, claimants)
        decreases todo
      {
        var s :| s in todo;
        DivideOneMore(ms, was, done, s, authority, first, freeCost, freeTools, claimants);
        if s in members && !Keeps(was[s], authority, first) {
          members := members[s := DividedMember(members[s], was[s], authority, freeCost, freeTools, claimants)];
        }
        done := done + {s};
        todo := todo - {s};
      }
    }

    /** The division of a new grant: from the spend read now, among the members listed before. */
    method Divide(before: Ledger, root: SessionId, authority: Authority, first: bool)
      modifies `members
      ensures Tables() == Divided(before, old(Tables()), root, authority, first)
    {
      var actualCost, _ := AddUp(root, Cost);
      var actualTools, _ := AddUp(root, Tools);
      DivideRows(before.members, ActiveMembers(before, root), authority, first, FreeOf(authority.costUsd, actualCost), FreeOf(authority.toolCalls, actualTools));
    }

    /** Whether the reservations a grant leaves fit it. */
    method CheckFit(w: World, v: View, root: SessionId) returns (fits: bool)
      requires Describes(v, Tables(), w, root)
      ensures fits <==> Fits(Tables(), w, root)
    {
      TotalSplits(Tables(), root, Cost);
      TotalSplits(Tables(), root, Tools);
      var authority := v.authority;
      fits := v.state.Active?
        && (authority.costUsd.Some? ==> v.cost.actual + v.cost.outstanding <= authority.costUsd.value)
        && (authority.toolCalls.Some? ==> v.tools.actual + v.tools.outstanding <= authority.toolCalls.value)
        && (authority.concurrency.Some? ==> v.occupied <= authority.concurrency.value);
    }

    /** The grant after its members are enrolled: divides, and reads the allowance before and after. */
    method ReserveLive(w: World, root: SessionId, authority: Authority, first: bool) returns (v: Option<View>)
      modifies this
      ensures Tables() == Reserved(old(Tables()), w, root, authority, first)
      ensures v.None? <==> root !in Tables().budgets
      ensures v.Some? ==> Describes(v.value, Tables(), w, root)
    {
      var before := Tables();
      var _ := ReadAllowance(w, root);
      Divide(before, root, authority, first);
      v := ReadAllowance(w, root);
    }

    method CheckGrant(v: Option<View>, w: World, root: SessionId, authority: Authority, tree: seq<TreeRow>) returns (refusal: Option<Refusal>)
      requires v.None? <==> root !in budgets
      requires v.Some? ==> Describes(v.value, Tables(), w, root)
      ensures refusal == AuthorizeError(Tables(), root, authority, tree)
    {
      if v.Some? {
        return if v.value.state in {Exhausted, AccountingUnavailable} then Some(StoppedAllowance) else None;
      }
      if authority.toolCalls.Some? && exists row :: row in tree && row.tools > row.counted {
        return Some(IncompleteHistory);
      }
      return None;
    }

    /** Writes the grant, enrolls its tree and reserves for its live members. */
    method GrantAndReserve(w: World, root: SessionId, authority: Authority, tree: seq<TreeRow>, first: bool, resumed: bool) returns (fits: bool)
      requires first == (root !in budgets) && resumed == Resumes(Tables(), root)
      modifies this
      ensures Tables() == Reserved(Enroll(Granted(old(Tables()), root, authority), root, tree, resumed), w, root, authority, first)
      ensures fits <==> Fits(Tables(), w, root)
    {
      budgets := budgets[root := Budget(authority, Active, root in budgets && budgets[root].costUnpriced)];
      EnrollTree(root, tree, resumed);
      var v := ReserveLive(w, root, authority, first);
      fits := false;
      if v.Some? {
        fits := CheckFit(w, v.value, root);
      }
    }

    /** The person's grant, or nothing changed and why. */
    method AuthorizeCampaign(w: World, root: SessionId, authority: Authority, tree: seq<TreeRow>) returns (refusal: Option<Refusal>)
      modifies this
      ensures match Authorize(old(Tables()), w, root, authority, tree)
        case Ok(k) => refusal.None? && Tables() == k
        case Refused(reason) => refusal == Some(reason) && Tables() == old(Tables())
    {
      var saved := Tables();
      var v := ReadAllowance(w, root);
      refusal := CheckGrant(v, w, root, authority, tree);
      if refusal.Some? {
        RollBack(saved);
        return;
      }
      var fits := GrantAndReserve(w, root, authority, tree, v.None?, v.Some? && v.value.state.Revoked?);
      if !fits {
        RollBack(saved);
        return Some(BelowReservations);
      }
      Forgive(root);
    }

    /** Starts the excess of the campaign's members over; it is a history variable that nothing reads. */
    method Forgive(root: SessionId)
      modifies `members
      ensures Tables() == Forgiven(old(Tables()), root)
    {
      members := Forgiven(Tables(), root).members;
    }

    // ----- usage, receipts and generations -----

    method OnSessionUsage(s: SessionId, cost: nat, tools: nat)
      modifies `members
      ensures Tables() == SessionUsage(old(Tables()), s, cost, tools)
    {
      if s in members {
        var m := members[s];
        members := members[s := m.(cost := m.cost.Charge(m.active, cost), tools := m.tools.Charge(m.active, tools))];
      }
    }

    method OnToolCall(s: SessionId, call: string)
      modifies `members, `calls
      ensures Tables() == ToolCall(old(Tables()), s, call)
    {
      if s in members {
        calls := calls[s := (if s in calls then calls[s] else {}) + {call}];
        var m := members[s];
        members := members[s := m.(tools := m.tools.Charge(m.active, |calls[s]|))];
      }
    }

    method StoreCheckpoint(s: SessionId, c: Checkpoint)
      modifies `checkpoints
      ensures Tables() == RecordCheckpoint(old(Tables()), s, c)
    {
      if s in members && c.generation == members[s].generation {
        checkpoints := checkpoints[s := c];
      }
    }

    method SettleMedia(s: SessionId, root: SessionId, generation: Generation, usage: FinalUsage) returns (settled: bool)
      modifies this
      ensures (Tables(), settled) == SettleMediaReview(old(Tables()), s, root, generation, usage)
    {
      if s !in members || members[s].root != root || members[s].generation != generation {
        return false;
      }
      if !members[s].active {
        return Attested(Tables(), s).Some?;
      }
      if usage.UnpricedUsage? {
        StopAllowance(root, AccountingUnavailable);
        return false;
      }
      WriteSettlement(s, Final(Checkpoint(generation, 0, 0, usage.cost)), usage.cost, usage.toolCalls);
      return true;
    }

    method ReleaseHeldSlot(w: World, root: SessionId, s: SessionId, generation: Generation) returns (r: ReleaseResult)
      modifies this
      ensures (Tables(), r) == ReleaseSlot(old(Tables()), w, root, s, generation)
    {
      if (s, generation) in releases {
        var known := releases[(s, generation)];
        return if known.root == root then ReleaseOk(known, true) else ReleaseRefused(NotInCampaign);
      }
      if s !in members || members[s].root != root || s == root {
        return ReleaseRefused(NotInCampaign);
      }
      if members[s].generation != generation {
        return ReleaseRefused(Relaunched);
      }
      if !members[s].active {
        return ReleaseRefused(AlreadyFree);
      }
      if !Releasable(Tables(), w, s) {
        return ReleaseRefused(NotReleasable);
      }
      var reason := HeldFor(members[s]).value;
      var final := s in checkpoints && checkpoints[s].generation == generation;
      if final {
        WriteSettlement(s, Final(checkpoints[s]), checkpoints[s].cost, 0);
      } else {
        WriteSettlement(s, Released(generation), 0, 0);
      }
      var release := SlotRelease(root, reason, members[s].cost.spent, members[s].tools.spent, final);
      releases := releases[(s, generation) := release];
      return ReleaseOk(release, false);
    }

    method Redispatch(w: World, s: SessionId, renewed: Generation)
      modifies `members, `checkpoints
      ensures Tables() == ReplaceDispatch(old(Tables()), w, s, renewed)
    {
      checkpoints := checkpoints - {s};
      if s in members {
        var m := members[s].(generation := renewed);
        if m.active && s in w.oldRunners {
          m := m.(unprovable := Some(renewed));
        }
        members := members[s := m];
      }
    }

    method RestoreUnsent(s: SessionId, saved: DispatchState)
      modifies `members, `checkpoints
      ensures Tables() == RestoreDispatch(old(Tables()), s, saved)
    {
      if s in members {
        members := members[s := members[s].(active := saved.active, generation := saved.generation, unprovable := saved.unprovable)];
      }
      checkpoints := checkpoints - {s};
      if saved.checkpoint.Some? {
        checkpoints := checkpoints[s := saved.checkpoint.value];
      }
      assert old(checkpoints) - {s} == checkpoints - {s};
    }

    /** A restart: admitted again, dispatched under a new generation, and put back when not sent. */
    method RestartMember(w: World, root: SessionId, s: SessionId, renewed: Generation, sent: bool) returns (refusal: Option<Refusal>)
      modifies this
      ensures match Relaunch(old(Tables()), w, root, s, renewed, sent)
        case Ok(k) => refusal.None? && Tables() == k
        case Refused(reason) => refusal == Some(reason) && Tables() == old(Tables())
    {
      if s !in members {
        return Some(Unavailable);
      }
      var saved := SavedDispatch(Tables(), s);
      refusal := AdmitMember(w, root, Allocation(s, members[s].cost.limit, members[s].tools.limit), Limits(None, None), true, true, renewed);
      if refusal.Some? {
        return;
      }
      Redispatch(w, s, renewed);
      if !sent {
        RestoreUnsent(s, saved);
      }
    }
  }

  /** One more row divided. */
  function DividedOne(rows: map<SessionId, Member>, was: map<SessionId, Member>, s: SessionId, authority: Authority, first: bool,
                      freeCost: nat, freeTools: nat, claimants: nat): map<SessionId, Member>
    requires s in was && 0 < claimants
  {
    if s in rows && !Keeps(was[s], authority, first)
    then rows[s := DividedMember(rows[s], was[s], authority, freeCost, freeTools, claimants)] else rows
  }

  lemma DivideOneMore(ms: map<SessionId, Member>, was: map<SessionId, Member>, done: set<SessionId>, s: SessionId, authority: Authority, first: bool,
                      freeCost: nat, freeTools: nat, claimants: nat)
    requires done + {s} <= was.Keys && 0 < claimants && s !in done
    ensures var rows := DividedRows(ms, was, done, authority, first, freeCost, freeTools, claimants);
      DividedRows(ms, was, done + {s}, authority, first, freeCost, freeTools, claimants)
      == DividedOne(rows, was, s, authority, first, freeCost, freeTools, claimants)
  {
  }

  lemma DivideNone(ms: map<SessionId, Member>, was: map<SessionId, Member>, authority: Authority, first: bool,
                   freeCost: nat, freeTools: nat, claimants: nat)
    requires 0 < claimants
    ensures DividedRows(ms, was, {}, authority, first, freeCost, freeTools, claimants) == ms
  {
  }

  /** The steps that bring an allowance up to date, taken one after another. */
  lemma StandingSteps(l: Ledger, k: Ledger, w: World, root: SessionId, observed: bool, reached: bool)
    requires root in l.budgets && (observed <==> AnyUnpriced(l, w, root)) && (reached <==> Reached(l, root, Cost) || Reached(l, root, Tools))
    requires k == l.(budgets := k.budgets) && k.budgets.Keys == l.budgets.Keys
    requires forall r :: r in l.budgets ==>
      k.budgets[r] == if r == root then StandingOf(l.budgets[root], observed, reached) else l.budgets[r]
    ensures k == Standing(l, w, root)
  {
    assert k.budgets == l.budgets[root := StandingOf(l.budgets[root], observed, reached)];
  }

  /** Figures depend on the members and the ceilings only. */
  lemma ShowsAlike(l: Ledger, k: Ledger, root: SessionId, f: Figures, d: Dim)
    requires root in l.budgets && Shows(f, l, root, d)
    requires k.members == l.members && root in k.budgets && k.budgets[root].authority == l.budgets[root].authority
    ensures Shows(f, k, root, d) && (Reached(k, root, d) <==> Reached(l, root, d))
  {
  }
}
