/** What single operations of the campaign ledger come to, on the numbers in its rows: which charge a
    settlement leaves, what a report leaves on a meter, and when each of them happens. */
module CampaignOutcomes {
  import opened CampaignBudget
  import opened CampaignRuns
  import opened Options

  function Larger(a: nat, b: nat): nat { if a < b then b else a }

  /** A row that ended at these charges, and is otherwise as it was. */
  predicate EndedAt(m: Member, n: Member, cost: nat, tools: nat) {
    && n.cost.spent == cost && n.tools.spent == tools && !n.active
    && n.root == m.root && n.generation == m.generation && n.absent == m.absent && n.unprovable == m.unprovable && n.hold == m.hold
    && n.cost.limit == m.cost.limit && n.cost.userLimit == m.cost.userLimit
    && n.tools.limit == m.tools.limit && n.tools.userLimit == m.tools.userLimit
  }

  /** The one settlement kept for this evidence states at most the charge, and exactly the charge when it
      is new; earlier settlements are kept in front of it. */
  predicate KeptOnce(before: seq<Settlement>, after: seq<Settlement>, evidence: Evidence, cost: nat, tools: nat) {
    if exists row :: row in before && row.evidence == evidence then
      after == before && forall row :: row in before ==> row.cost <= cost && row.tools <= tools
    else after == before + [Settlement(evidence, cost, tools)]
  }

  /** `s` alone has settled: on this evidence, at these charges. */
  ghost predicate SettledAt(l: Ledger, k: Ledger, s: SessionId, evidence: Evidence, cost: nat, tools: nat) {
    && s in l.members && k.members.Keys == l.members.Keys
    && EndedAt(l.members[s], k.members[s], cost, tools)
    && (forall t :: t in l.members && t != s ==> k.members[t] == l.members[t])
    && s in k.settlements && KeptOnce(if s in l.settlements then l.settlements[s] else [], k.settlements[s], evidence, cost, tools)
    && (forall t :: t != s ==> (t in k.settlements <==> t in l.settlements))
    && (forall t :: t in l.settlements && t != s ==> k.settlements[t] == l.settlements[t])
    && s !in k.checkpoints && (forall t :: t != s ==> (t in k.checkpoints <==> t in l.checkpoints))
    && (forall t :: t in l.checkpoints && t != s ==> k.checkpoints[t] == l.checkpoints[t])
    && k.budgets == l.budgets && k.calls == l.calls
  }

  lemma SettleComesTo(l: Ledger, s: SessionId, evidence: Evidence, cost: nat, tools: nat)
    requires Backed(l) && s in l.members
    ensures SettledAt(l, Settle(l, s, evidence, cost, tools), s, evidence,
                      Larger(l.members[s].cost.spent, cost), Larger(l.members[s].tools.spent, tools))
    ensures Settle(l, s, evidence, cost, tools).releases == l.releases
  {
    if s in l.settlements { assert AllBacked(l.settlements[s], l.members[s]); }
  }

  // ----- checkpoints -----

  /** The history that was hydrated is the one the checkpoint names, in runner or in wire coordinates. */
  ghost predicate SameHistory(local: nat, hydrated: Option<nat>) {
    exists e :: hydrated == Some(e) && (if e < 20 then e == local else e == 20 + 7 * local)
  }

  /** What a checkpoint needs to settle its member. */
  ghost predicate MaySettle(l: Ledger, w: World, s: SessionId, historyEpoch: Option<nat>, hydratedSeq: nat) {
    && s in l.members && s in l.checkpoints && s in w.sessions
    && w.sessions[s].status in {Completed, Failed, Stopped} && s !in w.stopping
    && var m, c := l.members[s], l.checkpoints[s];
    && c.generation == m.generation && (s, m.generation) !in l.releases
    && !(m.active && m.unprovable == Some(m.generation))
    && SameHistory(c.historyEpoch, historyEpoch) && c.throughSeq <= hydratedSeq
  }

  /** Final usage that a cost ceiling depends on, and that has no price. */
  predicate Unpriceable(l: Ledger, w: World, s: SessionId)
    requires s in l.members
  {
    s in w.unpriced && l.members[s].root in l.budgets && l.budgets[l.members[s].root].authority.costUsd.Some?
  }

  lemma HistoriesMatch(local: nat, hydrated: Option<nat>)
    ensures EpochMatches(local, hydrated) <==> SameHistory(local, hydrated)
  {
  }

  /** A checkpoint settles its member exactly when the session ended with no stop pending, the checkpoint
      is of the current generation, which nobody released and whose retirement can be proved, the
      hydrated history covers it, and its usage can be priced. The charge is then the larger of what was
      recorded and what the checkpoint states; nothing may lower it. */
  lemma CheckpointSettles(l: Ledger, w: World, s: SessionId, historyEpoch: Option<nat>, hydratedSeq: nat)
    requires Backed(l)
    ensures var (k, settled) := SettleCheckpoint(l, w, s, historyEpoch, hydratedSeq);
      && (settled <==> MaySettle(l, w, s, historyEpoch, hydratedSeq) && !Unpriceable(l, w, s))
      && (settled ==>
            && s in l.checkpoints && s in l.members
            && SettledAt(l, k, s, Final(l.checkpoints[s]), Larger(l.members[s].cost.spent, l.checkpoints[s].cost), l.members[s].tools.spent))
      && k.releases == l.releases
  {
    if s in l.checkpoints { HistoriesMatch(l.checkpoints[s].historyEpoch, historyEpoch); }
    if Proven(l, w, s, historyEpoch, hydratedSeq) && !Unaccountable(l, w, s) {
      SettleComesTo(l, s, Final(l.checkpoints[s]), l.checkpoints[s].cost, 0);
    }
  }

  /** Otherwise nothing moves, but that unpriceable final usage stops an allowance that was active. */
  lemma UnsettledCheckpointKeeps(l: Ledger, w: World, s: SessionId, historyEpoch: Option<nat>, hydratedSeq: nat)
    requires !SettleCheckpoint(l, w, s, historyEpoch, hydratedSeq).1
    ensures var k := SettleCheckpoint(l, w, s, historyEpoch, hydratedSeq).0;
      if MaySettle(l, w, s, historyEpoch, hydratedSeq)
      then StopsFor(l, k, l.members[s].root, AccountingUnavailable)
      else k == l
  {
    if s in l.checkpoints { HistoriesMatch(l.checkpoints[s].historyEpoch, historyEpoch); }
  }

  /** Only the campaign's state has changed, and only if it was active. */
  predicate StopsFor(l: Ledger, k: Ledger, root: SessionId, state: State) {
    && k.members == l.members && k.calls == l.calls && k.checkpoints == l.checkpoints
    && k.settlements == l.settlements && k.releases == l.releases && k.budgets.Keys == l.budgets.Keys
    && (forall r :: r in l.budgets && r != root ==> k.budgets[r] == l.budgets[r])
    && (root in l.budgets ==>
          && k.budgets[root].authority == l.budgets[root].authority && k.budgets[root].costUnpriced == l.budgets[root].costUnpriced
          && k.budgets[root].state == if l.budgets[root].state == Active then state else l.budgets[root].state)
  }

  // ----- media results -----

  /** A media result settles its member exactly when it names the member's campaign and generation, the
      member is active and the usage is priced. Both charges are then the larger of what was recorded
      and what was reported. */
  lemma MediaResultSettles(l: Ledger, s: SessionId, root: SessionId, g: Generation, cost: nat, tools: nat)
    requires Backed(l)
    ensures var (k, done) := SettleMediaReview(l, s, root, g, PricedUsage(cost, tools));
      if s in l.members && l.members[s].root == root && l.members[s].generation == g && l.members[s].active then
        && done
        && SettledAt(l, k, s, Final(Checkpoint(g, 0, 0, cost)), Larger(l.members[s].cost.spent, cost), Larger(l.members[s].tools.spent, tools))
        && k.releases == l.releases
      else k == l && (done ==> s in l.members && l.members[s].root == root && l.members[s].generation == g && Attested(l, s).Some?)
  {
    if s in l.members { SettleComesTo(l, s, Final(Checkpoint(g, 0, 0, cost)), cost, tools); }
  }

  /** Unpriced media usage settles nothing, and stops the allowance. */
  lemma UnpricedMediaResultStops(l: Ledger, s: SessionId, root: SessionId, g: Generation, tools: nat)
    requires s in l.members && l.members[s].root == root && l.members[s].generation == g && l.members[s].active
    ensures var (k, done) := SettleMediaReview(l, s, root, g, UnpricedUsage(tools));
      !done && StopsFor(l, k, root, AccountingUnavailable)
  {
  }

  // ----- person-made releases -----

  /** Why only a person can free the slot: the current generation's retirement cannot be proved, or a
      retirement hold names it. */
  function Reason(m: Member): Option<HeldReason> {
    if m.unprovable == Some(m.generation) then Some(OlderRunner)
    else if m.hold.Some? && m.hold.value.generation == m.generation then Some(m.hold.value.reason)
    else None
  }

  /** The worker's slot is held: it ended, with its stop confirmed and none pending, it is no reviewer,
      and nothing proves that its provider is gone. */
  predicate HeldSlot(l: Ledger, w: World, s: SessionId) {
    && s in l.members && s in w.sessions && s !in w.reviewers
    && var m, x := l.members[s], w.sessions[s];
    && m.active && s != m.root && Reason(m).Some?
    && x.status in {Completed, Failed, Stopped} && s !in w.stopping && (x.status == Stopped ==> x.stopConfirmation.Some?)
    && (m.unprovable == Some(m.generation)
        || (x.stopConfirmation != Some(RunnerAbsent) && m.absent != Some(m.generation)
            && (s in l.checkpoints ==> l.checkpoints[s].generation != m.generation)))
  }

  lemma HeldIsReleasable(l: Ledger, w: World, s: SessionId)
    requires s in l.members && l.members[s].active
    ensures Releasable(l, w, s) <==> HeldSlot(l, w, s)
  {
  }

  /** A release settles a held slot's generation: at the larger of what was recorded and what a final
      checkpoint of it states, or at what was recorded where there is none. The release records the
      charge, the reason and which of the two it was. */
  lemma ReleaseSettles(l: Ledger, w: World, root: SessionId, s: SessionId, g: Generation)
    requires Backed(l) && (s, g) !in l.releases && s in l.members && l.members[s].root == root && l.members[s].generation == g
    ensures var (k, r) := ReleaseSlot(l, w, root, s, g);
      if HeldSlot(l, w, s) then
        var final := s in l.checkpoints && l.checkpoints[s].generation == g;
        var cost := if final then Larger(l.members[s].cost.spent, l.checkpoints[s].cost) else l.members[s].cost.spent;
        var release := SlotRelease(root, Reason(l.members[s]).value, cost, l.members[s].tools.spent, final);
        && SettledAt(l, k, s, if final then Final(l.checkpoints[s]) else Released(g), cost, l.members[s].tools.spent)
        && k.releases == l.releases[(s, g) := release] && r == ReleaseOk(release, false)
      else k == l && r.ReleaseRefused?
  {
    if l.members[s].active {
      HeldIsReleasable(l, w, s);
      var final := s in l.checkpoints && l.checkpoints[s].generation == g;
      SettleComesTo(l, s, if final then Final(l.checkpoints[s]) else Released(g), if final then l.checkpoints[s].cost else 0, 0);
    }
  }

  /** A release that names no current generation of a worker of the campaign changes nothing; one that was
      made before is answered from its record, to its own campaign only. */
  lemma ReleaseElsewhereKeeps(l: Ledger, w: World, root: SessionId, s: SessionId, g: Generation)
    requires (s, g) in l.releases || s !in l.members || l.members[s].root != root || l.members[s].generation != g
    ensures var (k, r) := ReleaseSlot(l, w, root, s, g);
      && k == l
      && (if (s, g) in l.releases && l.releases[(s, g)].root == root then r == ReleaseOk(l.releases[(s, g)], true) else r.ReleaseRefused?)
  {
  }

  // ----- what a read settles -----

  /** The member settles when the allowance of `root` is read. */
  ghost predicate SettlesNow(l: Ledger, w: World, root: SessionId, s: SessionId)
    requires s in l.members
  {
    && l.members[s].active && l.members[s].root == root && s in w.sessions
    && MaySettle(l, w, s, w.sessions[s].historyEpoch, w.sessions[s].hydratedSeq) && !Unpriceable(l, w, s)
  }

  lemma SettlesNowIs(l: Ledger, w: World, root: SessionId, s: SessionId)
    requires s in l.members
    ensures s in Settleable(l, w, EndedMembers(l, w, root)) <==> SettlesNow(l, w, root, s)
  {
    if s in w.sessions && s in l.checkpoints { HistoriesMatch(l.checkpoints[s].historyEpoch, w.sessions[s].historyEpoch); }
  }

  /** What settling leaves of the member: its row ended at these charges, its settlement kept, and no
      checkpoint. */
  predicate MemberSettled(l: Ledger, k: Ledger, s: SessionId)
    requires s in l.members && s in l.checkpoints && s in k.members
  {
    && EndedAt(l.members[s], k.members[s], Larger(l.members[s].cost.spent, l.checkpoints[s].cost), l.members[s].tools.spent)
    && s in k.settlements && s !in k.checkpoints
    && KeptOnce(if s in l.settlements then l.settlements[s] else [], k.settlements[s], Final(l.checkpoints[s]),
                k.members[s].cost.spent, k.members[s].tools.spent)
  }

  predicate MemberKept(l: Ledger, k: Ledger, s: SessionId)
    requires s in l.members && s in k.members
  {
    && k.members[s] == l.members[s] && (s in k.checkpoints <==> s in l.checkpoints) && (s in k.settlements <==> s in l.settlements)
    && (s in l.checkpoints ==> k.checkpoints[s] == l.checkpoints[s]) && (s in l.settlements ==> k.settlements[s] == l.settlements[s])
  }

  /** Reading an allowance settles exactly those of its active members whose final checkpoint may settle
      now and can be priced, each at the larger of what was recorded and what its checkpoint states, and
      leaves every other row alone. */
  lemma ReadSettles(l: Ledger, w: World, root: SessionId, s: SessionId)
    requires Backed(l) && s in l.members
    ensures var k := Read(l, w, root);
      && k.members.Keys == l.members.Keys
      && (if SettlesNow(l, w, root, s) then s in l.checkpoints && MemberSettled(l, k, s) else MemberKept(l, k, s))
  {
    var ids := EndedMembers(l, w, root);
    var k := SettleAll(l, w, root, ids);
    StandingKeepsRows(k, w, root);
    SettledRow(l, w, root, ids, s);
    SettlesNowIs(l, w, root, s);
    if SettlesNow(l, w, root, s) { FinalRowIs(l, k, s); }
  }

  lemma FinalRowIs(l: Ledger, k: Ledger, s: SessionId)
    requires Backed(l) && s in l.members && s in l.checkpoints && s in k.members
    requires k.members[s] == SettledMember(l.members[s], l.checkpoints[s].cost, 0) && s in k.settlements && s !in k.checkpoints
    requires k.settlements[s] == Recorded(RowsIn(l.settlements, s), FinalRow(l.members[s], l.checkpoints[s]))
    ensures MemberSettled(l, k, s)
  {
    if s in l.settlements { assert AllBacked(l.settlements[s], l.members[s]); }
  }

  lemma SettledRow(l: Ledger, w: World, root: SessionId, ids: set<SessionId>, s: SessionId)
    requires s in l.members && ids == EndedMembers(l, w, root)
    ensures var k := SettleAll(l, w, root, ids);
      && k.members.Keys == l.members.Keys
      && (if s in Settleable(l, w, ids) then
            && s in l.checkpoints && k.members[s] == SettledMember(l.members[s], l.checkpoints[s].cost, 0)
            && s in k.settlements && k.settlements[s] == Recorded(RowsIn(l.settlements, s), FinalRow(l.members[s], l.checkpoints[s]))
            && s !in k.checkpoints
          else
            MemberKept(l, k, s))
  {
  }

  // ----- usage -----

  /** A usage report leaves each meter at the larger of its spend and the report, and nothing else
      changes; a report on a session that is no member changes nothing. */
  lemma ReportCounts(l: Ledger, s: SessionId, cost: nat, tools: nat)
    ensures var k := SessionUsage(l, s, cost, tools);
      if s !in l.members then k == l
      else
        && k.members.Keys == l.members.Keys
        && k.members[s].cost.spent == Larger(l.members[s].cost.spent, cost)
        && k.members[s].tools.spent == Larger(l.members[s].tools.spent, tools)
        && SameButUsage(l.members[s], k.members[s])
        && (forall t :: t in l.members && t != s ==> k.members[t] == l.members[t])
        && k.(members := l.members) == l
  {
  }

  predicate SameButUsage(m: Member, n: Member) {
    && n.root == m.root && n.active == m.active && n.generation == m.generation
    && n.absent == m.absent && n.unprovable == m.unprovable && n.hold == m.hold
    && n.cost.limit == m.cost.limit && n.cost.userLimit == m.cost.userLimit
    && n.tools.limit == m.tools.limit && n.tools.userLimit == m.tools.userLimit
  }

  /** A tool call is counted once: the tool meter is at the larger of its spend and how many different
      calls were reported. */
  lemma CallCounts(l: Ledger, s: SessionId, call: string)
    ensures var k := ToolCall(l, s, call);
      if s !in l.members then k == l
      else
        && k.members.Keys == l.members.Keys && s in k.calls
        && k.calls[s] == (if s in l.calls then l.calls[s] else {}) + {call}
        && k.members[s].tools.spent == Larger(l.members[s].tools.spent, |k.calls[s]|)
        && k.members[s].cost == l.members[s].cost && SameButUsage(l.members[s], k.members[s])
        && (forall t :: t in l.members && t != s ==> k.members[t] == l.members[t])
        && k.(members := l.members, calls := l.calls) == l
        && (forall t :: t in l.calls && t != s ==> t in k.calls && k.calls[t] == l.calls[t])
  {
  }

  // ----- what is noted -----

  /** Only this member's row has changed. */
  predicate OnlyRow(l: Ledger, k: Ledger, s: SessionId) {
    && k.(members := l.members) == l && k.members.Keys == l.members.Keys
    && (forall t :: t in l.members && t != s ==> k.members[t] == l.members[t])
  }

  /** A report is kept for the generation that the member has, and for no other. */
  lemma CheckpointIsKept(l: Ledger, s: SessionId, c: Checkpoint)
    ensures RecordCheckpoint(l, s, c) ==
      if s in l.members && l.members[s].generation == c.generation then l.(checkpoints := l.checkpoints[s := c]) else l
  {
  }

  /** An active member's current generation is marked as one whose provider is gone; no other row is. */
  lemma AbsenceMarks(l: Ledger, s: SessionId)
    ensures var k := NoteProviderAbsent(l, s);
      if s in l.members && l.members[s].active
      then OnlyRow(l, k, s) && k.members[s] == l.members[s].(absent := Some(l.members[s].generation)) else k == l
  {
  }

  /** It is marked as one whose retirement nobody can prove exactly when its runner is too old. */
  lemma OldRunnerMarks(l: Ledger, w: World, s: SessionId)
    ensures var k := MarkUnprovable(l, w, s);
      if s in l.members && l.members[s].active && s in w.oldRunners
      then OnlyRow(l, k, s) && k.members[s] == l.members[s].(unprovable := Some(l.members[s].generation)) else k == l
  {
    if s in l.members { assert l.members[s := l.members[s]] == l.members; }
  }

  /** A hold is kept for an active member's current generation, and for no other. */
  lemma HoldMarks(l: Ledger, s: SessionId, hold: Hold)
    ensures var k := NoteRetirementHold(l, s, hold);
      if s in l.members && l.members[s].active && l.members[s].generation == hold.generation && hold.reason != OlderRunner
      then OnlyRow(l, k, s) && k.members[s] == l.members[s].(hold := Some(hold)) else k == l
  {
  }

  /** A relaunch gives the member its new generation, marked at once where the runner is too old to prove
      its retirement, and forgets the old one's checkpoint. */
  lemma ReplacementRenews(l: Ledger, w: World, s: SessionId, renewed: Generation)
    requires s in l.members
    ensures var k, m := ReplaceDispatch(l, w, s, renewed), l.members[s];
      && k.checkpoints == l.checkpoints - {s} && OnlyRow(l.(checkpoints := k.checkpoints), k, s)
      && k.members[s] == m.(generation := renewed, unprovable := if m.active && s in w.oldRunners then Some(renewed) else m.unprovable)
  {
  }

  /** A child that never ran leaves nothing behind, and everything of other sessions is as it was. */
  lemma UnlaunchedIsGone(l: Ledger, s: SessionId)
    ensures var k := ReleaseUnlaunched(l, s);
      && s !in k.members && s !in k.calls && s !in k.checkpoints && s !in k.settlements
      && (forall t :: t in l.members && t != s ==> t in k.members && k.members[t] == l.members[t])
      && (forall t :: t in l.calls && t != s ==> t in k.calls && k.calls[t] == l.calls[t])
      && (forall t :: t in l.checkpoints && t != s ==> t in k.checkpoints && k.checkpoints[t] == l.checkpoints[t])
      && (forall t :: t in l.settlements && t != s ==> t in k.settlements && k.settlements[t] == l.settlements[t])
      && k.budgets == l.budgets && k.releases == l.releases
  {
  }

  /** An attestation is given exactly when the member ended, and its last settlement is on a final
      checkpoint of its generation and states at least its charge. */
  lemma AttestsExactly(l: Ledger, s: SessionId)
    ensures var rows := if s in l.settlements then l.settlements[s] else [];
      Attested(l, s) ==
        if && s in l.members && !l.members[s].active && rows != []
           && var row := rows[|rows| - 1];
           && row.evidence.Final? && row.evidence.checkpoint.generation == l.members[s].generation
           && l.members[s].cost.spent <= row.cost && l.members[s].tools.spent <= row.tools
        then Some(Attestation(l.members[s].root, rows[|rows| - 1].evidence.checkpoint, rows[|rows| - 1].cost, rows[|rows| - 1].tools))
        else None
  {
  }
}
