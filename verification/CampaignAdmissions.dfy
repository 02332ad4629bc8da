/** Who the campaign ledger admits and with what, in the numbers of its rows: when an admission is
    accepted, what is offered by default, what a grant divides, and which sessions occupy a slot. */
module CampaignAdmissions {
  import opened CampaignBudget
  import opened CampaignRuns
  import opened CampaignTotals
  import opened Options

  // ----- slots -----

  /** An ended worker whose slot is free: its stop is confirmed, none is pending, its retirement can be
      proved, and its runner is gone, reported the provider absent, or sent its final checkpoint. */
  predicate ProvenEnd(l: Ledger, w: World, s: SessionId)
    requires s in l.members
  {
    && s in w.sessions && s !in w.stopping
    && var m, x := l.members[s], w.sessions[s];
    && x.status in {Completed, Failed, Stopped} && (x.status == Stopped ==> x.stopConfirmation.Some?)
    && m.unprovable != Some(m.generation)
    && (x.stopConfirmation == Some(RunnerAbsent) || m.absent == Some(m.generation)
        || (s in l.checkpoints && l.checkpoints[s].generation == m.generation))
  }

  /** The occupied slots are those of active workers other than the root and reviewers, unless their end
      is proved. */
  lemma SlotsAre(l: Ledger, w: World, root: SessionId, s: SessionId)
    ensures s in OccupiedSlots(l, w, root) <==>
      s in l.members && l.members[s].root == root && l.members[s].active && s != root && s !in w.reviewers && !ProvenEnd(l, w, s)
  {
  }

  // ----- admission -----

  function Asked(requested: Option<nat>, limit: Option<nat>): Option<nat> {
    if requested.Some? then requested else limit
  }

  /** A dimension has room for what is asked: it is not below the member's spend nor above its person's
      own ceiling; and where the campaign has a ceiling, something finite beyond the spend is asked, no
      more than what is unreserved and what the member itself holds. */
  predicate RoomFor(requested: Option<nat>, meter: Meter, active: bool, ceiling: Option<nat>, total: int) {
    var asked := Asked(requested, meter.limit);
    && (asked.Some? ==> meter.spent <= asked.value && (meter.userLimit.Some? ==> asked.value <= meter.userLimit.value))
    && (ceiling.Some? ==>
          && asked.Some? && meter.spent < asked.value
          && asked.value - meter.spent <= (if total < ceiling.value then ceiling.value - total else 0)
                                        + (if active && meter.limit.Some? && meter.spent < meter.limit.value then meter.limit.value - meter.spent else 0))
  }

  /** The row an admission is measured against: the member's own, or a fresh one. */
  function RowOf(l: Ledger, root: SessionId, s: SessionId, user: Limits, g: Generation): Member {
    if s in l.members then l.members[s]
    else Member(root, Meter(0, None, user.costUsd, 0), Meter(0, None, user.toolCalls, 0), false, g, None, None, None)
  }

  /** The admission fits the allowance as it was just read: the allowance is active, the session belongs to
      no other, a launch has a free slot unless it needs none or holds its own, and both dimensions have
      room. */
  ghost predicate MayAdmit(l: Ledger, w: World, root: SessionId, a: Allocation, user: Limits, launch: bool, g: Generation) {
    && root in l.budgets && l.budgets[root].state == Active
    && (a.session in l.members ==> l.members[a.session].root == root)
    && var authority, m := l.budgets[root].authority, RowOf(l, root, a.session, user, g);
    && (launch && authority.concurrency.Some? && a.session != root && a.session !in w.reviewers
        && !(a.session in l.members && m.active && !ProvenEnd(l, w, a.session)) ==>
          |OccupiedSlots(l, w, root)| < authority.concurrency.value)
    && RoomFor(a.costUsd, m.cost, m.active, authority.costUsd, Total(l, root, Cost))
    && RoomFor(a.toolCalls, m.tools, m.active, authority.toolCalls, Total(l, root, Tools))
  }

  lemma RoomIs(l: Ledger, root: SessionId, m: Member, a: Allocation, d: Dim)
    requires root in l.budgets
    ensures DimError(l, root, m, a, d).None? <==>
      RoomFor(if d.Cost? then a.costUsd else a.toolCalls, MeterOf(m, d), m.active, Ceiling(l.budgets[root].authority, d), Total(l, root, d))
  {
  }

  /** The admission's row: the allocation asked for, or what the member had where nothing was; active as
      asked; everything else as it was. */
  predicate AdmittedRow(m: Member, n: Member, a: Allocation, activate: bool) {
    n == m.(cost := m.cost.(limit := Asked(a.costUsd, m.cost.limit)), tools := m.tools.(limit := Asked(a.toolCalls, m.tools.limit)),
            active := activate)
  }

  /** Unpriced usage of a member, noted for the campaign. */
  ghost predicate Notes(l: Ledger, k: Ledger, w: World, root: SessionId) {
    && k.budgets.Keys == l.budgets.Keys && (forall r :: r in l.budgets && r != root ==> k.budgets[r] == l.budgets[r])
    && (root in l.budgets ==>
          k.budgets[root] == l.budgets[root].(costUnpriced :=
            l.budgets[root].costUnpriced || exists s :: s in k.members && k.members[s].root == root && s in w.unpriced))
  }

  lemma MayAdmitIs(l: Ledger, w: World, root: SessionId, a: Allocation, user: Limits, launch: bool, g: Generation)
    ensures AdmissionError(l, w, root, a, user, launch, g).None? <==> MayAdmit(l, w, root, a, user, launch, g)
  {
    if root in l.budgets {
      var m := RowFor(l, root, a.session, user, g);
      assert m == RowOf(l, root, a.session, user, g);
      RoomIs(l, root, m, a, Cost);
      RoomIs(l, root, m, a, Tools);
    }
  }

  /** What an accepted admission writes: its row, and nothing of an activated session's checkpoint; and it
      notes unpriced usage. */
  ghost predicate Writes(l: Ledger, k: Ledger, w: World, root: SessionId, a: Allocation, user: Limits, activate: bool, g: Generation) {
    && k.members.Keys == l.members.Keys + {a.session}
    && AdmittedRow(RowOf(l, root, a.session, user, g), k.members[a.session], a, activate)
    && (forall t :: t in l.members && t != a.session ==> k.members[t] == l.members[t])
    && k.checkpoints == (if activate then l.checkpoints - {a.session} else l.checkpoints)
    && k.calls == l.calls && k.settlements == l.settlements && k.releases == l.releases
    && Notes(l, k, w, root)
  }

  lemma AdmittedWrites(l: Ledger, w: World, root: SessionId, a: Allocation, user: Limits, activate: bool, g: Generation)
    ensures Writes(l, NoteUnpriced(Admitted(l, root, a, user, activate, g), w, root), w, root, a, user, activate, g)
  {
    NotingNotes(Admitted(l, root, a, user, activate, g), w, root);
  }

  lemma NotingNotes(l: Ledger, w: World, root: SessionId)
    ensures var k := NoteUnpriced(l, w, root); Notes(l, k, w, root) && k.(budgets := l.budgets) == l
  {
  }

  /** An admission is accepted exactly when it fits the allowance as read; it then writes its row, and is
      refused otherwise. */
  lemma AdmitsExactly(l: Ledger, w: World, root: SessionId, a: Allocation, user: Limits, activate: bool, launch: bool, g: Generation)
    ensures var read, o := Read(l, w, root), Admit(l, w, root, a, user, activate, launch, g);
      if MayAdmit(read, w, root, a, user, launch, g) then o.Ok? && Writes(read, o.ledger, w, root, a, user, activate, g) else o.Refused?
  {
    MayAdmitIs(Read(l, w, root), w, root, a, user, launch, g);
    AdmittedWrites(Read(l, w, root), w, root, a, user, activate, g);
  }

  // ----- the default offer -----

  /** The slots that are free for new workers; one is assumed where no concurrency was granted. */
  ghost function FreeFor(l: Ledger, w: World, root: SessionId): nat
    requires root in l.budgets
  {
    var granted := if l.budgets[root].authority.concurrency.Some? then l.budgets[root].authority.concurrency.value else 1;
    if |OccupiedSlots(l, w, root)| < granted then granted - |OccupiedSlots(l, w, root)| else 0
  }

  /** The default share of what is unreserved: an equal part for each free slot and at least one, and for a
      reviewer one part more and at least two. */
  function EqualPart(left: nat, free: nat, reviewer: bool): nat {
    left / if reviewer then (if free == 0 then 2 else free + 1) else (if free == 0 then 1 else free)
  }

  ghost function LeftOf(ceiling: nat, total: int): nat { if total < ceiling then ceiling - total else 0 }

  /** What is offered in one dimension: what was asked for where there is no ceiling; under one, what was
      asked for, to a reviewer no more than its share, else what the member had, else its share. */
  ghost predicate Offers(offer: Option<nat>, requested: Option<nat>, prior: Option<nat>, ceiling: Option<nat>, total: int, free: nat, reviewer: bool) {
    if ceiling.None? then offer == requested
    else
      var share := EqualPart(LeftOf(ceiling.value, total), free, reviewer);
      && offer.Some?
      && (requested.Some? && !reviewer ==> offer == requested)
      && (requested.Some? && reviewer ==> offer.value <= requested.value && offer.value <= share && (offer.value == share || offer == requested))
      && (requested.None? ==> offer == if prior.Some? then prior else Some(share))
  }

  lemma PrepareOffers(l: Ledger, w: World, root: SessionId, s: SessionId, requested: Limits, reviewer: bool)
    requires root in l.budgets
    ensures var a, authority := Prepare(l, w, root, s, requested, reviewer), l.budgets[root].authority;
      && a.session == s
      && Offers(a.costUsd, requested.costUsd, if s in l.members then l.members[s].cost.limit else None, authority.costUsd,
                Total(l, root, Cost), FreeFor(l, w, root), reviewer)
      && Offers(a.toolCalls, requested.toolCalls, if s in l.members then l.members[s].tools.limit else None, authority.toolCalls,
                Total(l, root, Tools), FreeFor(l, w, root), reviewer)
  {
  }

  // ----- the state of an allowance -----

  /** Where a read leaves the allowance: usage without a price is noted; an active allowance stops where
      its cost ceiling cannot be accounted for, or else where spend has reached a ceiling; and one that
      is stopped stays as it is. */
  lemma StandingAfterRead(l: Ledger, w: World, root: SessionId)
    requires root in l.budgets
    ensures var k := Standing(l, w, root);
      var b := l.budgets[root];
      var unpriced := b.costUnpriced || exists s :: s in l.members && l.members[s].root == root && s in w.unpriced;
      && k.(budgets := l.budgets) == l && k.budgets.Keys == l.budgets.Keys
      && (forall r :: r in l.budgets && r != root ==> k.budgets[r] == l.budgets[r])
      && k.budgets[root] == Budget(b.authority,
           if b.state != Active then b.state
           else if unpriced && b.authority.costUsd.Some? then AccountingUnavailable
           else if (b.authority.costUsd.Some? && Actual(l, root, Cost) >= b.authority.costUsd.value)
                || (b.authority.toolCalls.Some? && Actual(l, root, Tools) >= b.authority.toolCalls.value) then Exhausted
           else Active,
           unpriced)
  {
  }

  // ----- grants -----

  /** Within the ceilings and the concurrency in force. */
  ghost predicate WithinGrant(k: Ledger, w: World, root: SessionId) {
    && root in k.budgets && k.budgets[root].state == Active
    && (k.budgets[root].authority.costUsd.Some? ==> Total(k, root, Cost) <= k.budgets[root].authority.costUsd.value)
    && (k.budgets[root].authority.toolCalls.Some? ==> Total(k, root, Tools) <= k.budgets[root].authority.toolCalls.value)
    && (k.budgets[root].authority.concurrency.Some? ==> |OccupiedSlots(k, w, root)| <= k.budgets[root].authority.concurrency.value)
  }

  /** The ledger that a grant would leave: its ceilings in force, the tree enrolled, what was free divided,
      and the allowance read again. */
  ghost function Proposed(read: Ledger, w: World, root: SessionId, authority: Authority, tree: seq<TreeRow>): Ledger {
    var enrolled := Enroll(Granted(read, root, authority), root, tree, root in read.budgets && read.budgets[root].state == Revoked);
    Read(Divided(enrolled, Read(enrolled, w, root), root, authority, root !in read.budgets), w, root)
  }

  /** A new grant is refused for an allowance that stopped by itself, for an incomplete tool history, or
      when what is spent, reserved or occupied passes it; otherwise it is in force. */
  lemma GrantsExactly(l: Ledger, w: World, root: SessionId, authority: Authority, tree: seq<TreeRow>, read: Ledger, k: Ledger)
    requires read == Read(l, w, root) && k == Proposed(read, w, root, authority, tree)
    ensures var o := Authorize(l, w, root, authority, tree);
      if root in read.budgets && (read.budgets[root].state == Exhausted || read.budgets[root].state == AccountingUnavailable)
      then o == Refused(StoppedAllowance)
      else if root !in read.budgets && authority.toolCalls.Some? && (exists row :: row in tree && row.tools > row.counted)
      then o == Refused(IncompleteHistory)
      else if WithinGrant(k, w, root) then o == Ok(Forgiven(k, root)) && SameButExcess(k, Forgiven(k, root), root)
      else o == Refused(BelowReservations)
  {
    AuthorizeIs(l, w, root, authority, tree, read, k);
    GrantDecides(w, root, authority, tree, read, k, Authorize(l, w, root, authority, tree));
  }

  lemma AuthorizeIs(l: Ledger, w: World, root: SessionId, authority: Authority, tree: seq<TreeRow>, read: Ledger, k: Ledger)
    requires read == Read(l, w, root) && k == Proposed(read, w, root, authority, tree)
    ensures Authorize(l, w, root, authority, tree) ==
      if AuthorizeError(read, root, authority, tree).Some? then Refused(AuthorizeError(read, root, authority, tree).value)
      else if Fits(k, w, root) then Ok(Forgiven(k, root)) else Refused(BelowReservations)
  {
  }

  lemma GrantDecides(w: World, root: SessionId, authority: Authority, tree: seq<TreeRow>, read: Ledger, k: Ledger, o: CampaignBudget.Outcome)
    requires o ==
      if AuthorizeError(read, root, authority, tree).Some? then Refused(AuthorizeError(read, root, authority, tree).value)
      else if Fits(k, w, root) then Ok(Forgiven(k, root)) else Refused(BelowReservations)
    ensures
      if root in read.budgets && (read.budgets[root].state == Exhausted || read.budgets[root].state == AccountingUnavailable)
      then o == Refused(StoppedAllowance)
      else if root !in read.budgets && authority.toolCalls.Some? && (exists row :: row in tree && row.tools > row.counted)
      then o == Refused(IncompleteHistory)
      else if WithinGrant(k, w, root) then o == Ok(Forgiven(k, root)) && SameButExcess(k, Forgiven(k, root), root)
      else o == Refused(BelowReservations)
  {
    FitsIs(k, w, root);
    ForgivenIs(k, root);
    GrantErrors(read, root, authority, tree);
  }

  lemma GrantErrors(read: Ledger, root: SessionId, authority: Authority, tree: seq<TreeRow>)
    ensures AuthorizeError(read, root, authority, tree) ==
      if root in read.budgets && (read.budgets[root].state == Exhausted || read.budgets[root].state == AccountingUnavailable) then Some(StoppedAllowance)
      else if root !in read.budgets && authority.toolCalls.Some? && (exists row :: row in tree && row.tools > row.counted) then Some(IncompleteHistory)
      else None
  {
  }

  lemma ForgivenIs(k: Ledger, root: SessionId)
    ensures SameButExcess(k, Forgiven(k, root), root)
  {
  }

  lemma FitsIs(k: Ledger, w: World, root: SessionId)
    ensures Fits(k, w, root) <==> WithinGrant(k, w, root)
  {
    if root in k.budgets {
      var authority := k.budgets[root].authority;
      assert Ceiling(authority, Cost) == authority.costUsd && Ceiling(authority, Tools) == authority.toolCalls;
    }
  }

  /** Nothing differs but the history of excess, which starts over for the campaign's members. */
  predicate SameButExcess(l: Ledger, k: Ledger, root: SessionId) {
    && k.(members := l.members) == l && k.members.Keys == l.members.Keys
    && forall s :: s in l.members ==>
         var m, n := l.members[s], k.members[s];
         if m.root == root
         then n == m.(cost := m.cost.(excess := 0), tools := m.tools.(excess := 0)) else n == m
  }

  /** A grant puts its ceilings in force and makes the allowance active. */
  lemma GrantActivates(l: Ledger, root: SessionId, authority: Authority)
    ensures var k := Granted(l, root, authority);
      && k.(budgets := l.budgets) == l && k.budgets.Keys == l.budgets.Keys + {root}
      && (forall r :: r in l.budgets && r != root ==> k.budgets[r] == l.budgets[r])
      && k.budgets[root] == Budget(authority, Active, root in l.budgets && l.budgets[root].costUnpriced)
  {
  }

  /** The smaller of two limits; no limit is above any. */
  predicate IsSmaller(limit: Option<nat>, a: Option<nat>, b: Option<nat>) {
    && (limit == a || limit == b)
    && (a.Some? ==> limit.Some? && limit.value <= a.value) && (b.Some? ==> limit.Some? && limit.value <= b.value)
  }

  /** A member's part: its own limit where there is no ceiling, and the smaller of that and its spend plus
      an equal part of what is not spent where there is one. */
  ghost predicate PartOf(limit: Option<nat>, meter: Meter, ceiling: Option<nat>, spent: int, claimants: nat)
    requires 0 < claimants
  {
    if ceiling.None? then limit == meter.limit
    else IsSmaller(limit, meter.limit, Some(meter.spent + (if spent < ceiling.value then ceiling.value - spent else 0) / claimants))
  }

  lemma PartIs(meter: Meter, ceiling: Option<nat>, spent: nat, claimants: nat)
    requires 0 < claimants
    ensures PartOf(DividedLimit(meter, ceiling, FreeOf(ceiling, spent), claimants), meter, ceiling, spent, claimants)
  {
  }

  /** The member was live when members were listed, and needs a part: on a first grant, or where its
      reservation is not finite under a ceiling. */
  predicate Claims(before: Ledger, root: SessionId, authority: Authority, first: bool, s: SessionId) {
    && s in before.members && before.members[s].root == root && before.members[s].active
    && (first || (authority.costUsd.Some? && before.members[s].cost.limit.None?) || (authority.toolCalls.Some? && before.members[s].tools.limit.None?))
  }

  /** As many claim a part as are live, and the granted concurrency beside them. */
  function ClaimCount(before: Ledger, root: SessionId, authority: Authority): (n: nat)
    ensures 0 < n
  {
    var n := |ActiveMembers(before, root)| + if authority.concurrency.Some? then authority.concurrency.value else 1;
    if n == 0 then 1 else n
  }

  /** What a grant divides: each member that claims a part gets it in both dimensions, and nothing else
      changes. */
  lemma GrantDivides(before: Ledger, used: Ledger, root: SessionId, authority: Authority, first: bool, s: SessionId)
    requires s in used.members
    ensures var k := Divided(before, used, root, authority, first);
      && k.(members := used.members) == used && k.members.Keys == used.members.Keys
      && (if Claims(before, root, authority, first, s) then
            && PartOf(k.members[s].cost.limit, before.members[s].cost, authority.costUsd, Actual(used, root, Cost), ClaimCount(before, root, authority))
            && PartOf(k.members[s].tools.limit, before.members[s].tools, authority.toolCalls, Actual(used, root, Tools), ClaimCount(before, root, authority))
            && OnlyLimits(used.members[s], k.members[s])
          else k.members[s] == used.members[s])
  {
    ClaimsIs(before, root, authority, first, s);
    DividedAre(before, used, root, authority, first, s);
    if Claims(before, root, authority, first, s) {
      RowDivides(used.members[s], before.members[s], authority, Actual(used, root, Cost), Actual(used, root, Tools), ClaimCount(before, root, authority));
    }
  }

  lemma DividedAre(before: Ledger, used: Ledger, root: SessionId, authority: Authority, first: bool, s: SessionId)
    requires s in used.members
    ensures var k, live := Divided(before, used, root, authority, first), ActiveMembers(before, root);
      && k.(members := used.members) == used && k.members.Keys == used.members.Keys
      && 0 <= Actual(used, root, Cost) && 0 <= Actual(used, root, Tools)
      && k.members[s] ==
           if s in live && !Keeps(before.members[s], authority, first)
           then DividedMember(used.members[s], before.members[s], authority, FreeOf(authority.costUsd, Actual(used, root, Cost)),
                              FreeOf(authority.toolCalls, Actual(used, root, Tools)), Claimants(live, authority))
           else used.members[s]
  {
    SumNotNegative(used.members, SpentIn(root, Cost));
    SumNotNegative(used.members, SpentIn(root, Tools));
    assert Ceiling(authority, Cost) == authority.costUsd && Ceiling(authority, Tools) == authority.toolCalls;
  }

  lemma RowDivides(m: Member, was: Member, authority: Authority, cost: nat, tools: nat, claimants: nat)
    requires 0 < claimants
    ensures var n := DividedMember(m, was, authority, FreeOf(authority.costUsd, cost), FreeOf(authority.toolCalls, tools), claimants);
      && PartOf(n.cost.limit, was.cost, authority.costUsd, cost, claimants)
      && PartOf(n.tools.limit, was.tools, authority.toolCalls, tools, claimants)
      && OnlyLimits(m, n)
  {
    PartIs(was.cost, authority.costUsd, cost, claimants);
    PartIs(was.tools, authority.toolCalls, tools, claimants);
  }

  lemma ClaimsIs(before: Ledger, root: SessionId, authority: Authority, first: bool, s: SessionId)
    ensures Claims(before, root, authority, first, s) <==> s in ActiveMembers(before, root) && !Keeps(before.members[s], authority, first)
    ensures ClaimCount(before, root, authority) == Claimants(ActiveMembers(before, root), authority)
  {
  }

  predicate OnlyLimits(m: Member, n: Member) {
    n == m.(cost := m.cost.(limit := n.cost.limit), tools := m.tools.(limit := n.tools.limit))
  }

  // ----- the tree of a grant -----

  /** What a session of the tree has in the ledger once it is enrolled: a new one, what its own row shows,
      active unless it ended; one that is there already, what it had. */
  lemma TreeIsEnrolled(l: Ledger, root: SessionId, row: TreeRow)
    ensures var k, s := EnrollRow(l, root, row, false), row.session;
      && k.members.Keys == l.members.Keys + {s} && (forall t :: t in l.members ==> k.members[t] == l.members[t])
      && (s !in l.members ==>
            k.members[s] == Member(root, Meter(row.cost, row.costLimit, row.costLimit, 0), Meter(row.tools, row.toolLimit, row.toolLimit, 0),
                                   !row.ended, row.renewed, None, None, None))
      && k.calls == l.calls[s := (if s in l.calls then l.calls[s] else {}) + row.calls]
      && k.checkpoints == l.checkpoints && k.budgets == l.budgets && k.settlements == l.settlements && k.releases == l.releases
  {
  }

  /** A meter whose allowance is authorized again: a session limit set below its allocation meanwhile
      tightens the person's own ceiling, which the allocation then keeps. */
  predicate Tightens(m: Meter, n: Meter, limit: Option<nat>) {
    var tighter := limit.Some? && 0 < limit.value && (m.limit.Some? ==> limit.value < m.limit.value);
    && n == m.(limit := n.limit, userLimit := n.userLimit)
    && (if tighter then IsSmaller(n.userLimit, m.userLimit, limit) else n.userLimit == m.userLimit)
    && (if n.userLimit.Some? then IsSmaller(n.limit, m.limit, n.userLimit) else n.limit == m.limit)
  }

  lemma ResumeTightens(m: Meter, limit: Option<nat>)
    ensures Tightens(m, Resume(m, limit), limit)
  {
  }

  /** A member of an allowance that is authorized again after the person revoked it: it runs again unless it
      ended, and one that had stopped does so at a new generation, without the old one's checkpoint. */
  lemma TreeIsResumed(l: Ledger, root: SessionId, row: TreeRow)
    requires row.session in l.members
    ensures var k, s := EnrollRow(l, root, row, true), row.session;
      var again := !l.members[s].active && !row.ended;
      && k.members.Keys == l.members.Keys && (forall t :: t in l.members && t != s ==> k.members[t] == l.members[t])
      && Tightens(l.members[s].cost, k.members[s].cost, row.costLimit) && Tightens(l.members[s].tools, k.members[s].tools, row.toolLimit)
      && k.members[s] == l.members[s].(cost := k.members[s].cost, tools := k.members[s].tools, active := l.members[s].active || !row.ended,
                                       generation := if again then row.renewed else l.members[s].generation)
      && k.checkpoints == (if again then l.checkpoints - {s} else l.checkpoints)
  {
    ResumeTightens(l.members[row.session].cost, row.costLimit);
    ResumeTightens(l.members[row.session].tools, row.toolLimit);
  }

  // ----- restarts -----

  /** The member's dispatch is at a new generation, and the old one's checkpoint is forgotten. */
  predicate Redispatched(a: Ledger, k: Ledger, s: SessionId, renewed: Generation) {
    && k.members.Keys == a.members.Keys && (forall t :: t in a.members && t != s ==> k.members[t] == a.members[t])
    && s in k.members && k.members[s].generation == renewed && k.members[s].active == a.members[s].active && k.checkpoints == a.checkpoints - {s}
  }

  /** The member's dispatch is as it was in `l`. */
  predicate PutBack(l: Ledger, a: Ledger, k: Ledger, s: SessionId)
    requires s in l.members
  {
    && k.members.Keys == a.members.Keys && (forall t :: t in a.members && t != s ==> k.members[t] == a.members[t])
    && s in k.members && k.members[s].generation == l.members[s].generation && k.members[s].active == l.members[s].active
    && k.members[s].unprovable == l.members[s].unprovable
    && (s in k.checkpoints <==> s in l.checkpoints) && (s in l.checkpoints ==> k.checkpoints[s] == l.checkpoints[s])
    && k.checkpoints - {s} == a.checkpoints - {s}
  }

  lemma DispatchIs(l: Ledger, a: Ledger, w: World, s: SessionId, renewed: Generation)
    requires s in l.members && s in a.members
    ensures var replaced := ReplaceDispatch(a, w, s, renewed);
      Redispatched(a, replaced, s, renewed) && PutBack(l, a, RestoreDispatch(replaced, s, SavedDispatch(l, s)), s)
  {
    var replaced := ReplaceDispatch(a, w, s, renewed);
    var k := RestoreDispatch(replaced, s, SavedDispatch(l, s));
    assert k.checkpoints - {s} == a.checkpoints - {s};
  }

  /** A restart: the member is admitted again as a launch with what it was allocated, and then gets a new
      generation; one whose command could not be sent has its dispatch back as it was. */
  lemma RestartAdmits(l: Ledger, w: World, root: SessionId, s: SessionId, renewed: Generation, sent: bool)
    requires s in l.members
    ensures var m, o := l.members[s], Relaunch(l, w, root, s, renewed, sent);
      var admitted := Admit(l, w, root, Allocation(s, m.cost.limit, m.tools.limit), Limits(None, None), true, true, renewed);
      if admitted.Ok? then
        && o.Ok? && s in admitted.ledger.members
        && if sent then Redispatched(admitted.ledger, o.ledger, s, renewed) else PutBack(l, admitted.ledger, o.ledger, s)
      else o == admitted
  {
    var m := l.members[s];
    var admitted := Admit(l, w, root, Allocation(s, m.cost.limit, m.tools.limit), Limits(None, None), true, true, renewed);
    if admitted.Ok? { DispatchIs(l, admitted.ledger, w, s, renewed); }
  }
}
