/** Every run of the campaign ledger: its operations as steps, in any order and against any state of
    the other tables, and what all of them keep. */
module CampaignRuns {
  import opened CampaignBudget
  import opened CampaignTotals
  import opened Options

  // ----- steps and runs -----

  /** Operations that change who holds a reservation, or how large it is. */
  datatype Booking =
    | Admission(world: World, root: SessionId, allocation: Allocation, user: Limits, activate: bool, launch: bool, generation: Generation)
    | Restart(world: World, root: SessionId, session: SessionId, generation: Generation, sent: bool)
    | Grant(world: World, root: SessionId, authority: Authority, tree: seq<TreeRow>)
    | NeverLaunched(session: SessionId)

  /** Operations that read, charge, settle or note. */
  datatype Receipt =
    | ReadView(world: World, root: SessionId)
    | UsageReport(session: SessionId, cost: nat, toolCalls: nat)
    | ToolCallEvent(session: SessionId, call: string)
    | CheckpointReport(session: SessionId, checkpoint: Checkpoint)
    | SettleAttempt(world: World, session: SessionId, historyEpoch: Option<nat>, hydratedSeq: nat)
    | MediaResult(session: SessionId, root: SessionId, generation: Generation, usage: FinalUsage)
    | PersonRelease(world: World, root: SessionId, session: SessionId, generation: Generation)
    | OldRunner(world: World, session: SessionId)
    | AbsentReport(session: SessionId)
    | HoldReport(session: SessionId, hold: Hold)
    | StopAllowance(root: SessionId, state: State)

  datatype Op = Books(booking: Booking) | Receives(receipt: Receipt)

  ghost function Kept(l: Ledger, o: Outcome): Ledger {
    if o.Ok? then o.ledger else l
  }

  ghost function Book(l: Ledger, b: Booking): Ledger {
    match b
    case Admission(w, root, a, user, activate, launch, g) => Kept(l, Admit(l, w, root, a, user, activate, launch, g))
    case Restart(w, root, s, renewed, sent) => Kept(l, Relaunch(l, w, root, s, renewed, sent))
    case Grant(w, root, authority, tree) => Kept(l, Authorize(l, w, root, authority, tree))
    case NeverLaunched(s) => ReleaseUnlaunched(l, s)
  }

  ghost function Receive(l: Ledger, r: Receipt): Ledger {
    match r
    case ReadView(w, root) => Read(l, w, root)
    case UsageReport(s, cost, tools) => SessionUsage(l, s, cost, tools)
    case ToolCallEvent(s, call) => ToolCall(l, s, call)
    case CheckpointReport(s, c) => RecordCheckpoint(l, s, c)
    case SettleAttempt(w, s, epoch, seen) => SettleCheckpoint(l, w, s, epoch, seen).0
    case MediaResult(s, root, g, usage) => SettleMediaReview(l, s, root, g, usage).0
    case PersonRelease(w, root, s, g) => ReleaseSlot(l, w, root, s, g).0
    case OldRunner(w, s) => MarkUnprovable(l, w, s)
    case AbsentReport(s) => NoteProviderAbsent(l, s)
    case HoldReport(s, hold) => NoteRetirementHold(l, s, hold)
    case StopAllowance(root, state) => Stop(l, root, state)
  }

  /** The ledger after one operation; a refused one leaves it as it was. */
  ghost function Apply(l: Ledger, op: Op): Ledger {
    if op.Books? then Book(l, op.booking) else Receive(l, op.receipt)
  }

  /** A run, its first operation first. */
  datatype Run = End | Step(op: Op, rest: Run)

  ghost function After(l: Ledger, run: Run): Ledger
    decreases run
  {
    match run
    case End => l
    case Step(op, rest) => After(Apply(l, op), rest)
  }

  const EMPTY: Ledger := Ledger(map[], map[], map[], map[], map[], map[])

  /** A grant enrolls sessions that are new or already its own: a session belongs to one campaign. */
  predicate OwnTree(l: Ledger, root: SessionId, tree: seq<TreeRow>) {
    forall row :: row in tree && row.session in l.members ==> l.members[row.session].root == root
  }

  predicate Allowed(l: Ledger, op: Op) {
    op.Books? && op.booking.Grant? ==> OwnTree(l, op.booking.root, op.booking.tree)
  }

  ghost predicate AllAllowed(l: Ledger, run: Run)
    decreases run
  {
    match run
    case End => true
    case Step(op, rest) => Allowed(l, op) && AllAllowed(Apply(l, op), rest)
  }

  // ----- rows that reserve nothing -----

  /** A meter whose spend only grew, by no more than it held plus what counts as excess. */
  predicate QuietMeter(before: Meter, active: bool, after: Meter, still: bool) {
    && before.spent <= after.spent
    && (before.excess <= before.spent ==> after.excess <= after.spent)
    && after.Covered(still) - after.excess <= before.Covered(active) - before.excess
  }

  predicate QuietRow(m: Member, n: Member) {
    && n.root == m.root
    && QuietMeter(m.cost, m.active, n.cost, n.active)
    && QuietMeter(m.tools, m.active, n.tools, n.active)
  }

  lemma SettledIsQuiet(m: Member, cost: nat, tools: nat)
    ensures QuietRow(m, SettledMember(m, cost, tools))
  {
  }

  lemma ChargedIsQuiet(m: Member, cost: nat, tools: nat)
    ensures QuietRow(m, m.(cost := m.cost.Charge(m.active, cost), tools := m.tools.Charge(m.active, tools)))
  {
  }

  predicate SameAuthority(l: Ledger, k: Ledger) {
    && k.budgets.Keys == l.budgets.Keys
    && (forall r :: r in l.budgets ==> k.budgets[r].authority == l.budgets[r].authority)
  }

  /** A step that reserves nothing: the same members, each quiet, under the same authority. */
  predicate Quiet(l: Ledger, k: Ledger) {
    && k.members.Keys == l.members.Keys
    && (forall s :: s in l.members ==> QuietRow(l.members[s], k.members[s]))
    && SameAuthority(l, k)
  }

  lemma QuietTwice(l: Ledger, k: Ledger, j: Ledger)
    requires Quiet(l, k) && Quiet(k, j)
    ensures Quiet(l, j)
  {
    forall s | s in l.members ensures QuietRow(l.members[s], j.members[s]) {
      assert QuietRow(l.members[s], k.members[s]) && QuietRow(k.members[s], j.members[s]);
    }
  }

  lemma SameRowsAreQuiet(l: Ledger, k: Ledger)
    requires k.members == l.members && SameAuthority(l, k)
    ensures Quiet(l, k)
  {
  }

  lemma OneRowIsQuiet(l: Ledger, k: Ledger, s: SessionId, m: Member)
    requires s in l.members && k.members == l.members[s := m] && k.budgets == l.budgets
    requires QuietRow(l.members[s], m)
    ensures Quiet(l, k)
  {
  }

  // ----- what one step keeps -----

  /** Every member of `l` is still one, of the same campaign, charged at least as much. */
  predicate ChargesKept(l: Ledger, k: Ledger) {
    forall s :: s in l.members ==> s in k.members && Grown(l.members[s], k.members[s])
  }

  predicate Grown(m: Member, n: Member) {
    n.root == m.root && m.cost.spent <= n.cost.spent && m.tools.spent <= n.tools.spent
  }

  predicate Sane(l: Ledger) {
    forall s :: s in l.members ==> SaneRow(l.members[s])
  }

  predicate SaneRow(m: Member) {
    m.cost.excess <= m.cost.spent && m.tools.excess <= m.tools.spent
  }

  /** No settlement states more than its member's charge. */
  predicate Backed(l: Ledger) {
    forall s :: s in l.settlements ==> s in l.members && AllBacked(l.settlements[s], l.members[s])
  }

  predicate AllBacked(rows: seq<Settlement>, m: Member) {
    forall row :: row in rows ==> row.cost <= m.cost.spent && row.tools <= m.tools.spent
  }

  /** What a campaign's members hold, less the excess they reported, is within every ceiling. */
  ghost predicate Conserved(l: Ledger) {
    forall r, d :: r in l.budgets && Ceiling(l.budgets[r].authority, d).Some?
      ==> Held(l, r, d) <= Ceiling(l.budgets[r].authority, d).value
  }

  ghost predicate Sound(l: Ledger) {
    Sane(l) && Backed(l) && Conserved(l)
  }

  lemma ChargesKeptTwice(l: Ledger, k: Ledger, j: Ledger)
    requires ChargesKept(l, k) && ChargesKept(k, j)
    ensures ChargesKept(l, j)
  {
    forall s | s in l.members ensures s in j.members && Grown(l.members[s], j.members[s]) {
      assert s in k.members && Grown(l.members[s], k.members[s]) && Grown(k.members[s], j.members[s]);
    }
  }

  lemma QuietKeepsCharges(l: Ledger, k: Ledger)
    requires Quiet(l, k)
    ensures ChargesKept(l, k) && (Sane(l) ==> Sane(k))
  {
    forall s | s in l.members ensures Grown(l.members[s], k.members[s]) && (Sane(l) ==> SaneRow(k.members[s])) {
      assert QuietRow(l.members[s], k.members[s]);
    }
  }

  lemma QuietHoldsNoMore(l: Ledger, k: Ledger, root: SessionId, d: Dim)
    requires Quiet(l, k)
    ensures Held(k, root, d) <= Held(l, root, d)
  {
    forall s ensures At(k.members, s, HeldIn(root, d)) <= At(l.members, s, HeldIn(root, d)) {
      if s in l.members {
        assert QuietRow(l.members[s], k.members[s]);
      }
    }
    SumMonotone(k.members, l.members, HeldIn(root, d));
  }

  lemma QuietConserves(l: Ledger, k: Ledger)
    requires Quiet(l, k) && Conserved(l)
    ensures Conserved(k)
  {
    forall r, d | r in k.budgets && Ceiling(k.budgets[r].authority, d).Some?
      ensures Held(k, r, d) <= Ceiling(k.budgets[r].authority, d).value
    {
      QuietHoldsNoMore(l, k, r, d);
      assert k.budgets[r].authority == l.budgets[r].authority;
    }
  }

  lemma GrownStaysBacked(l: Ledger, k: Ledger)
    requires Backed(l) && ChargesKept(l, k) && k.settlements == l.settlements
    ensures Backed(k)
  {
    forall s | s in k.settlements ensures s in k.members && AllBacked(k.settlements[s], k.members[s]) {
      assert AllBacked(l.settlements[s], l.members[s]) && Grown(l.members[s], k.members[s]);
    }
  }

  /** The settlements after one of `s` was recorded at the charge it now has. */
  predicate SettledRows(l: Ledger, k: Ledger, s: SessionId, evidence: Evidence) {
    && s in k.members
    && k.settlements == l.settlements[s := Recorded(Rows(l, s), Settlement(evidence, k.members[s].cost.spent, k.members[s].tools.spent))]
  }

  lemma SettledStaysBacked(l: Ledger, k: Ledger, s: SessionId, evidence: Evidence)
    requires Backed(l) && ChargesKept(l, k) && SettledRows(l, k, s, evidence)
    ensures Backed(k)
  {
    forall t | t in k.settlements ensures t in k.members && AllBacked(k.settlements[t], k.members[t]) {
      if t in l.settlements {
        assert AllBacked(l.settlements[t], l.members[t]) && Grown(l.members[t], k.members[t]);
      }
      if t == s {
        RecordedIsBacked(Rows(l, s), Settlement(evidence, k.members[s].cost.spent, k.members[s].tools.spent), k.members[s]);
      }
    }
  }

  lemma RecordedIsBacked(rows: seq<Settlement>, row: Settlement, m: Member)
    requires AllBacked(rows, m) && row.cost <= m.cost.spent && row.tools <= m.tools.spent
    ensures AllBacked(Recorded(rows, row), m)
  {
  }

  /** A quiet step that records no settlement, or one of a single session, stays sound. */
  lemma QuietStaysSound(l: Ledger, k: Ledger)
    requires Quiet(l, k) && k.settlements == l.settlements && Sound(l)
    ensures Sound(k)
  {
    QuietKeepsCharges(l, k);
    QuietConserves(l, k);
    GrownStaysBacked(l, k);
  }

  lemma SettlingStaysSound(l: Ledger, k: Ledger, s: SessionId, evidence: Evidence)
    requires Quiet(l, k) && SettledRows(l, k, s, evidence) && Sound(l)
    ensures Sound(k)
  {
    QuietKeepsCharges(l, k);
    QuietConserves(l, k);
    SettledStaysBacked(l, k, s, evidence);
  }

  // ----- receipts -----

  lemma SettleFootprint(l: Ledger, s: SessionId, evidence: Evidence, cost: nat, tools: nat)
    requires s in l.members
    ensures var k := Settle(l, s, evidence, cost, tools);
      Quiet(l, k) && SettledRows(l, k, s, evidence) && SameGenerations(l, k) && k.releases == l.releases
  {
    var k := Settle(l, s, evidence, cost, tools);
    SettledIsQuiet(l.members[s], cost, tools);
    OneRowIsQuiet(l, k, s, SettledMember(l.members[s], cost, tools));
  }

  function EvidenceGeneration(e: Evidence): Generation {
    if e.Final? then e.checkpoint.generation else e.generation
  }

  predicate SameGenerations(l: Ledger, k: Ledger) {
    k.members.Keys == l.members.Keys && forall s :: s in l.members ==> k.members[s].generation == l.members[s].generation
  }

  /** One settlement, on evidence of the generation its member has. */
  predicate SettledOn(l: Ledger, k: Ledger, s: SessionId, evidence: Evidence) {
    SettledRows(l, k, s, evidence) && s in l.members && EvidenceGeneration(evidence) == l.members[s].generation
  }

  /** A settlement at a generation nobody released, or at one of the `exempt`. */
  predicate SettledUnreleased(l: Ledger, k: Ledger, s: SessionId, evidence: Evidence, exempt: set<(SessionId, Generation)>) {
    && SettledOn(l, k, s, evidence)
    && ((s, EvidenceGeneration(evidence)) !in l.releases || (s, EvidenceGeneration(evidence)) in exempt)
  }

  /** What a receipt does besides charging: no generation changes, no release is forgotten, and at
      most one session settles. */
  ghost predicate Settling(l: Ledger, k: Ledger, exempt: set<(SessionId, Generation)>) {
    && SameGenerations(l, k)
    && l.releases.Keys <= k.releases.Keys
    && (k.settlements == l.settlements || exists s, evidence :: SettledUnreleased(l, k, s, evidence, exempt))
  }

  lemma QuietSettlingIsSound(l: Ledger, k: Ledger, exempt: set<(SessionId, Generation)>)
    requires Quiet(l, k) && Settling(l, k, exempt) && Sound(l)
    ensures Sound(k)
  {
    if k.settlements == l.settlements {
      QuietStaysSound(l, k);
    } else {
      var s, evidence :| SettledUnreleased(l, k, s, evidence, exempt);
      SettlingStaysSound(l, k, s, evidence);
    }
  }

  lemma StopIsQuiet(l: Ledger, root: SessionId, state: State)
    ensures var k := Stop(l, root, state); Quiet(l, k) && Settling(l, k, {})
  {
    SameRowsAreQuiet(l, Stop(l, root, state));
  }

  lemma SettleAttemptIsQuiet(l: Ledger, w: World, s: SessionId, epoch: Option<nat>, seen: nat)
    ensures var k := SettleCheckpoint(l, w, s, epoch, seen).0; Quiet(l, k) && Settling(l, k, {})
  {
    var k := SettleCheckpoint(l, w, s, epoch, seen).0;
    if Proven(l, w, s, epoch, seen) {
      if Unaccountable(l, w, s) {
        StopIsQuiet(l, l.members[s].root, AccountingUnavailable);
      } else {
        SettleFootprint(l, s, Final(l.checkpoints[s]), l.checkpoints[s].cost, 0);
        assert SettledUnreleased(l, k, s, Final(l.checkpoints[s]), {});
      }
    } else {
      SameRowsAreQuiet(l, k);
    }
  }

  lemma MediaResultIsQuiet(l: Ledger, s: SessionId, root: SessionId, g: Generation, usage: FinalUsage)
    ensures var k := SettleMediaReview(l, s, root, g, usage).0; Quiet(l, k) && Settling(l, k, {(s, g)})
  {
    var k := SettleMediaReview(l, s, root, g, usage).0;
    if s !in l.members || l.members[s].root != root || l.members[s].generation != g || !l.members[s].active {
      SameRowsAreQuiet(l, k);
    } else if usage.UnpricedUsage? {
      StopIsQuiet(l, root, AccountingUnavailable);
    } else {
      SettleFootprint(l, s, Final(Checkpoint(g, 0, 0, usage.cost)), usage.cost, usage.toolCalls);
      assert SettledUnreleased(l, k, s, Final(Checkpoint(g, 0, 0, usage.cost)), {(s, g)});
    }
  }

  /** The state in which a person's release of a slot settles it. */
  predicate Settles(l: Ledger, w: World, root: SessionId, s: SessionId, g: Generation) {
    && (s, g) !in l.releases && s in l.members && l.members[s].root == root && s != root
    && l.members[s].generation == g && l.members[s].active && Releasable(l, w, s)
  }

  function ReleaseEvidence(l: Ledger, s: SessionId, g: Generation): (Evidence, nat) {
    if s in l.checkpoints && l.checkpoints[s].generation == g
    then (Final(l.checkpoints[s]), l.checkpoints[s].cost) else (Released(g), 0)
  }

  lemma ReleaseFootprint(l: Ledger, w: World, root: SessionId, s: SessionId, g: Generation)
    ensures var k := ReleaseSlot(l, w, root, s, g).0;
      if Settles(l, w, root, s, g)
      then
        var (evidence, cost) := ReleaseEvidence(l, s, g);
        && k.releases.Keys == l.releases.Keys + {(s, g)}
        && k.(releases := l.releases) == Settle(l, s, evidence, cost, 0)
      else k == l
  {
  }

  lemma PersonReleaseIsQuiet(l: Ledger, w: World, root: SessionId, s: SessionId, g: Generation)
    ensures var k := ReleaseSlot(l, w, root, s, g).0; Quiet(l, k) && Settling(l, k, {})
  {
    var k := ReleaseSlot(l, w, root, s, g).0;
    ReleaseFootprint(l, w, root, s, g);
    if Settles(l, w, root, s, g) {
      var (evidence, cost) := ReleaseEvidence(l, s, g);
      SettleFootprint(l, s, evidence, cost, 0);
      SettledAlike(l, k.(releases := l.releases), k, s, evidence);
    } else {
      SameRowsAreQuiet(l, k);
    }
  }

  lemma SettledAlike(l: Ledger, j: Ledger, k: Ledger, s: SessionId, evidence: Evidence)
    requires Quiet(l, j) && SettledUnreleased(l, j, s, evidence, {}) && SameGenerations(l, j)
    requires k.members == j.members && k.budgets == j.budgets && k.settlements == j.settlements && l.releases.Keys <= k.releases.Keys
    ensures Quiet(l, k) && Settling(l, k, {})
  {
    assert SettledUnreleased(l, k, s, evidence, {});
  }

  /** A quiet change of one row's meters and marks. */
  lemma OneRowReceived(l: Ledger, k: Ledger, s: SessionId, m: Member)
    requires s in l.members && k.members == l.members[s := m] && m.generation == l.members[s].generation
    requires k.budgets == l.budgets && k.settlements == l.settlements && k.releases == l.releases
    requires QuietRow(l.members[s], m)
    ensures Quiet(l, k) && Settling(l, k, {})
  {
    OneRowIsQuiet(l, k, s, m);
  }

  lemma ReportIsQuiet(l: Ledger, s: SessionId, cost: nat, tools: nat)
    ensures var k := SessionUsage(l, s, cost, tools); Quiet(l, k) && Settling(l, k, {})
  {
    if s in l.members {
      var m := l.members[s];
      ChargedIsQuiet(m, cost, tools);
      OneRowReceived(l, SessionUsage(l, s, cost, tools), s, m.(cost := m.cost.Charge(m.active, cost), tools := m.tools.Charge(m.active, tools)));
    }
  }

  lemma ToolCallIsQuiet(l: Ledger, s: SessionId, call: string)
    ensures var k := ToolCall(l, s, call); Quiet(l, k) && Settling(l, k, {})
  {
    if s in l.members {
      var m, n := l.members[s], |(if s in l.calls then l.calls[s] else {}) + {call}|;
      ChargedIsQuiet(m, 0, n);
      OneRowReceived(l, ToolCall(l, s, call), s, m.(tools := m.tools.Charge(m.active, n)));
    }
  }

  lemma CheckpointIsQuiet(l: Ledger, s: SessionId, c: Checkpoint)
    ensures var k := RecordCheckpoint(l, s, c); Quiet(l, k) && Settling(l, k, {})
  {
    SameRowsAreQuiet(l, RecordCheckpoint(l, s, c));
  }

  lemma MarkIsQuiet(l: Ledger, w: World, s: SessionId)
    ensures var k := MarkUnprovable(l, w, s); Quiet(l, k) && Settling(l, k, {})
  {
    var k := MarkUnprovable(l, w, s);
    if s in l.members { OneRowReceived(l, k, s, Marked(l.members[s], s in w.oldRunners)); } else { SameRowsAreQuiet(l, k); }
  }

  lemma AbsentIsQuiet(l: Ledger, s: SessionId)
    ensures var k := NoteProviderAbsent(l, s); Quiet(l, k) && Settling(l, k, {})
  {
    var k := NoteProviderAbsent(l, s);
    if k != l { OneRowReceived(l, k, s, k.members[s]); } else { SameRowsAreQuiet(l, k); }
  }

  lemma HoldIsQuiet(l: Ledger, s: SessionId, hold: Hold)
    ensures var k := NoteRetirementHold(l, s, hold); Quiet(l, k) && Settling(l, k, {})
  {
    var k := NoteRetirementHold(l, s, hold);
    if k != l { OneRowReceived(l, k, s, k.members[s]); } else { SameRowsAreQuiet(l, k); }
  }

  // ----- reading -----

  lemma StandingKeepsRows(l: Ledger, w: World, root: SessionId)
    ensures var k := Standing(l, w, root); k == l.(budgets := k.budgets)
  {
  }

  lemma StandingKeepsAuthority(l: Ledger, w: World, root: SessionId)
    ensures SameAuthority(l, Standing(l, w, root))
  {
  }

  lemma SettleAllIsQuiet(l: Ledger, w: World, root: SessionId, ids: set<SessionId>)
    ensures Quiet(l, SettleAll(l, w, root, ids))
  {
    var k := SettleAll(l, w, root, ids);
    forall s | s in l.members ensures QuietRow(l.members[s], k.members[s]) {
      if s in l.checkpoints {
        SettledIsQuiet(l.members[s], l.checkpoints[s].cost, 0);
      }
    }
  }

  lemma SettleAllStaysBacked(l: Ledger, w: World, root: SessionId, ids: set<SessionId>)
    requires Backed(l)
    ensures Backed(SettleAll(l, w, root, ids))
  {
    var k := SettleAll(l, w, root, ids);
    forall s | s in k.settlements ensures s in k.members && AllBacked(k.settlements[s], k.members[s]) {
      OneStaysBacked(l, w, root, ids, s);
    }
  }

  lemma OneStaysBacked(l: Ledger, w: World, root: SessionId, ids: set<SessionId>, s: SessionId)
    requires Backed(l) && s in SettleAll(l, w, root, ids).settlements
    ensures var k := SettleAll(l, w, root, ids); s in k.members && AllBacked(k.settlements[s], k.members[s])
  {
    if s in l.settlements {
      assert s in l.members && AllBacked(l.settlements[s], l.members[s]);
    }
    if s in l.checkpoints && s in l.members {
      SettledIsQuiet(l.members[s], l.checkpoints[s].cost, 0);
    }
  }

  lemma ReadIsQuiet(l: Ledger, w: World, root: SessionId)
    ensures Quiet(l, Read(l, w, root))
  {
    var k := SettleAll(l, w, root, EndedMembers(l, w, root));
    SettleAllIsQuiet(l, w, root, EndedMembers(l, w, root));
    StandingKeepsRows(k, w, root);
    StandingKeepsAuthority(k, w, root);
    SameRowsAreQuiet(k, Standing(k, w, root));
    QuietTwice(l, k, Standing(k, w, root));
  }

  lemma ReadStaysSound(l: Ledger, w: World, root: SessionId)
    requires Sound(l)
    ensures Sound(Read(l, w, root))
  {
    var k := SettleAll(l, w, root, EndedMembers(l, w, root));
    SettleAllIsQuiet(l, w, root, EndedMembers(l, w, root));
    SettleAllStaysBacked(l, w, root, EndedMembers(l, w, root));
    QuietKeepsCharges(l, k);
    QuietConserves(l, k);
    StandingKeepsRows(k, w, root);
    StandingKeepsAuthority(k, w, root);
    SameRowsAreQuiet(k, Standing(k, w, root));
    QuietStaysSound(k, Standing(k, w, root));
  }

  /** No receipt reserves anything, and none breaks soundness. */
  lemma ReceiptsAreQuiet(l: Ledger, r: Receipt)
    ensures Quiet(l, Receive(l, r))
    ensures Sound(l) ==> Sound(Receive(l, r))
  {
    match r
    case ReadView(w, root) =>
      ReadIsQuiet(l, w, root);
      if Sound(l) { ReadStaysSound(l, w, root); }
    case _ =>
      OtherReceiptsAreQuiet(l, r);
      if Sound(l) { QuietSettlingIsSound(l, Receive(l, r), Exempt(r)); }
  }

  /** The generation a media result settles without looking at releases. */
  function Exempt(r: Receipt): set<(SessionId, Generation)> {
    if r.MediaResult? then {(r.session, r.generation)} else {}
  }

  lemma OtherReceiptsAreQuiet(l: Ledger, r: Receipt)
    requires !r.ReadView?
    ensures Quiet(l, Receive(l, r)) && Settling(l, Receive(l, r), Exempt(r))
  {
    match r
    case UsageReport(s, cost, tools) => ReportIsQuiet(l, s, cost, tools);
    case ToolCallEvent(s, call) => ToolCallIsQuiet(l, s, call);
    case CheckpointReport(s, c) => CheckpointIsQuiet(l, s, c);
    case SettleAttempt(w, s, epoch, seen) => SettleAttemptIsQuiet(l, w, s, epoch, seen);
    case MediaResult(s, root, g, usage) => MediaResultIsQuiet(l, s, root, g, usage);
    case PersonRelease(w, root, s, g) => PersonReleaseIsQuiet(l, w, root, s, g);
    case OldRunner(w, s) => MarkIsQuiet(l, w, s);
    case AbsentReport(s) => AbsentIsQuiet(l, s);
    case HoldReport(s, hold) => HoldIsQuiet(l, s, hold);
    case StopAllowance(root, state) => StopIsQuiet(l, root, state);
  }

  // ----- bookings -----

  /** The row an admission wrote, and the rest of the ledger it read. */
  ghost predicate Booked(read: Ledger, k: Ledger, w: World, root: SessionId, a: Allocation, user: Limits, activate: bool, g: Generation) {
    && k == NoteUnpriced(Admitted(read, root, a, user, activate, g), w, root)
    && k.members == read.members[a.session := Allocated(RowFor(read, root, a.session, user, g), a, activate)]
    && SameAuthority(read, k) && k.settlements == read.settlements
  }

  lemma AdmitBooks(l: Ledger, w: World, root: SessionId, a: Allocation, user: Limits, activate: bool, launch: bool, g: Generation)
    ensures var o := Admit(l, w, root, a, user, activate, launch, g);
      && (o.Ok? <==> AdmissionError(Read(l, w, root), w, root, a, user, launch, g).None?)
      && (o.Ok? ==> Booked(Read(l, w, root), o.ledger, w, root, a, user, activate, g))
  {
    var read := Read(l, w, root);
    BookingFootprint(read, w, root, a, user, activate, g);
  }

  lemma BookingFootprint(read: Ledger, w: World, root: SessionId, a: Allocation, user: Limits, activate: bool, g: Generation)
    ensures Booked(read, NoteUnpriced(Admitted(read, root, a, user, activate, g), w, root), w, root, a, user, activate, g)
  {
  }

  /** What an accepted allocation adds to its member's cover is within what was unreserved. */
  lemma AllocatedMeter(read: Ledger, w: World, root: SessionId, a: Allocation, user: Limits, activate: bool, launch: bool, g: Generation, d: Dim)
    requires AdmissionError(read, w, root, a, user, launch, g).None?
    ensures root in read.budgets
    ensures var m := RowFor(read, root, a.session, user, g);
      var n := Allocated(m, a, activate);
      && m.root == root
      && n.root == root && MeterOf(n, d).spent == MeterOf(m, d).spent && MeterOf(n, d).excess == MeterOf(m, d).excess
      && (Ceiling(read.budgets[root].authority, d).Some?
          ==> MeterOf(n, d).Covered(activate) <= MeterOf(m, d).Covered(m.active) + Remaining(read, root, d))
  {
    var m := RowFor(read, root, a.session, user, g);
    assert DimError(read, root, m, a, d).None?;
  }

  /** Adding up: the total and what is held move by exactly the change of the booked row. */
  lemma BookedTotals(read: Ledger, k: Ledger, root: SessionId, s: SessionId, m: Member, n: Member, r: SessionId, d: Dim)
    requires k.members == read.members[s := n] && n.root == root && m.root == root
    requires MeterOf(n, d).excess == MeterOf(m, d).excess
    requires if s in read.members then m == read.members[s] else MeterOf(m, d) == Meter(0, MeterOf(m, d).limit, MeterOf(m, d).userLimit, 0) && !m.active
    ensures var added := if r == root then MeterOf(n, d).Covered(n.active) - MeterOf(m, d).Covered(m.active) else 0;
      Total(k, r, d) == Total(read, r, d) + added && Held(k, r, d) == Held(read, r, d) + added
  {
    SumUpdate(read.members, s, n, CoveredIn(r, d));
    SumUpdate(read.members, s, n, HeldIn(r, d));
  }

  /** `admit` alone never lifts a campaign's total above the larger of its ceiling and what it was. */
  lemma AdmitStaysWithinCeiling(l: Ledger, w: World, root: SessionId, a: Allocation, user: Limits, activate: bool, launch: bool, g: Generation, r: SessionId, d: Dim)
    requires Admit(l, w, root, a, user, activate, launch, g).Ok?
    requires r in Read(l, w, root).budgets && Ceiling(Read(l, w, root).budgets[r].authority, d).Some?
    ensures var read, k := Read(l, w, root), Admit(l, w, root, a, user, activate, launch, g).ledger;
      var ceiling := Ceiling(read.budgets[r].authority, d).value;
      && Total(k, r, d) <= (if Total(read, r, d) < ceiling then ceiling else Total(read, r, d))
      && (Held(read, r, d) <= ceiling ==> Held(k, r, d) <= ceiling)
  {
    var read := Read(l, w, root);
    AdmitBooks(l, w, root, a, user, activate, launch, g);
    BookedWithin(read, Admit(l, w, root, a, user, activate, launch, g).ledger, w, root, a, user, activate, launch, g, r, d);
  }

  lemma BookedWithin(read: Ledger, k: Ledger, w: World, root: SessionId, a: Allocation, user: Limits, activate: bool, launch: bool, g: Generation, r: SessionId, d: Dim)
    requires AdmissionError(read, w, root, a, user, launch, g).None?
    requires Booked(read, k, w, root, a, user, activate, g)
    requires r in read.budgets && Ceiling(read.budgets[r].authority, d).Some?
    ensures var ceiling := Ceiling(read.budgets[r].authority, d).value;
      && Total(k, r, d) <= (if Total(read, r, d) < ceiling then ceiling else Total(read, r, d))
      && (Held(read, r, d) <= ceiling ==> Held(k, r, d) <= ceiling)
  {
    var m := RowFor(read, root, a.session, user, g);
    AllocatedMeter(read, w, root, a, user, activate, launch, g, d);
    BookedTotals(read, k, root, a.session, m, Allocated(m, a, activate), r, d);
    TotalSplits(read, r, d);
  }

  lemma BookedKeepsRows(read: Ledger, k: Ledger, w: World, root: SessionId, a: Allocation, user: Limits, activate: bool, g: Generation)
    requires Booked(read, k, w, root, a, user, activate, g)
    ensures ChargesKept(read, k) && (Sane(read) ==> Sane(k)) && (Backed(read) ==> Backed(k))
  {
    if Backed(read) { GrownStaysBacked(read, k); }
  }

  lemma AdmitStaysSound(l: Ledger, w: World, root: SessionId, a: Allocation, user: Limits, activate: bool, launch: bool, g: Generation)
    requires Admit(l, w, root, a, user, activate, launch, g).Ok?
    ensures var k := Admit(l, w, root, a, user, activate, launch, g).ledger;
      ChargesKept(l, k) && (Sound(l) ==> Sound(k))
  {
    var read, k := Read(l, w, root), Admit(l, w, root, a, user, activate, launch, g).ledger;
    AdmitBooks(l, w, root, a, user, activate, launch, g);
    BookedKeepsRows(read, k, w, root, a, user, activate, g);
    ReadIsQuiet(l, w, root);
    QuietKeepsCharges(l, read);
    ChargesKeptTwice(l, read, k);
    if Sound(l) {
      ReadStaysSound(l, w, root);
      BookedConserves(read, k, w, root, a, user, activate, launch, g);
    }
  }

  lemma BookedConserves(read: Ledger, k: Ledger, w: World, root: SessionId, a: Allocation, user: Limits, activate: bool, launch: bool, g: Generation)
    requires AdmissionError(read, w, root, a, user, launch, g).None?
    requires Booked(read, k, w, root, a, user, activate, g) && Conserved(read)
    ensures Conserved(k)
  {
    forall r, d | r in k.budgets && Ceiling(k.budgets[r].authority, d).Some?
      ensures Held(k, r, d) <= Ceiling(k.budgets[r].authority, d).value
    {
      assert k.budgets[r].authority == read.budgets[r].authority;
      BookedWithin(read, k, w, root, a, user, activate, launch, g, r, d);
    }
  }

  // ----- restarts -----

  lemma ReplaceIsQuiet(k: Ledger, w: World, s: SessionId, renewed: Generation)
    requires s in k.members
    ensures var j := ReplaceDispatch(k, w, s, renewed);
      Quiet(k, j) && j.settlements == k.settlements && s in j.members && j.members[s].active == k.members[s].active
  {
    var m := Marked(k.members[s].(generation := renewed), s in w.oldRunners);
    OneRowIsQuiet(k, ReplaceDispatch(k, w, s, renewed), s, m);
  }

  lemma RestoreIsQuiet(j: Ledger, s: SessionId, saved: DispatchState)
    requires s in j.members && j.members[s].active
    ensures Quiet(j, RestoreDispatch(j, s, saved)) && RestoreDispatch(j, s, saved).settlements == j.settlements
  {
    OneRowIsQuiet(j, RestoreDispatch(j, s, saved), s, Restored(j.members[s], saved));
  }

  lemma RedispatchIsQuiet(k: Ledger, w: World, s: SessionId, renewed: Generation, saved: DispatchState, sent: bool)
    requires s in k.members && k.members[s].active
    ensures var j := ReplaceDispatch(k, w, s, renewed);
      var o := if sent then j else RestoreDispatch(j, s, saved);
      Quiet(k, o) && o.settlements == k.settlements
  {
    var j := ReplaceDispatch(k, w, s, renewed);
    ReplaceIsQuiet(k, w, s, renewed);
    if !sent {
      RestoreIsQuiet(j, s, saved);
      QuietTwice(k, j, RestoreDispatch(j, s, saved));
    }
  }

  lemma RelaunchFootprint(l: Ledger, w: World, root: SessionId, s: SessionId, renewed: Generation, sent: bool)
    requires Relaunch(l, w, root, s, renewed, sent).Ok?
    ensures s in l.members
    ensures var a := Allocation(s, l.members[s].cost.limit, l.members[s].tools.limit);
      var admitted := Admit(l, w, root, a, Limits(None, None), true, true, renewed);
      && admitted.Ok?
      && Relaunch(l, w, root, s, renewed, sent).ledger ==
         var j := ReplaceDispatch(admitted.ledger, w, s, renewed); if sent then j else RestoreDispatch(j, s, SavedDispatch(l, s))
  {
  }

  lemma RelaunchStaysSound(l: Ledger, w: World, root: SessionId, s: SessionId, renewed: Generation, sent: bool)
    requires Relaunch(l, w, root, s, renewed, sent).Ok?
    ensures var k := Relaunch(l, w, root, s, renewed, sent).ledger;
      ChargesKept(l, k) && (Sound(l) ==> Sound(k))
  {
    RelaunchFootprint(l, w, root, s, renewed, sent);
    var a := Allocation(s, l.members[s].cost.limit, l.members[s].tools.limit);
    var k := Admit(l, w, root, a, Limits(None, None), true, true, renewed).ledger;
    var o := Relaunch(l, w, root, s, renewed, sent).ledger;
    AdmitBooks(l, w, root, a, Limits(None, None), true, true, renewed);
    AdmitStaysSound(l, w, root, a, Limits(None, None), true, true, renewed);
    RedispatchIsQuiet(k, w, s, renewed, SavedDispatch(l, s), sent);
    QuietKeepsCharges(k, o);
    ChargesKeptTwice(l, k, o);
    if Sound(l) { QuietStaysSound(k, o); }
  }

  /** An unsent relaunch puts back the dispatch it replaced, final evidence included. */
  lemma RestoreUndoesReplace(l: Ledger, w: World, s: SessionId, renewed: Generation)
    requires s in l.members
    ensures RestoreDispatch(ReplaceDispatch(l, w, s, renewed), s, SavedDispatch(l, s)) == l
  {
    var j := RestoreDispatch(ReplaceDispatch(l, w, s, renewed), s, SavedDispatch(l, s));
    assert j.members == l.members;
    assert j.checkpoints == l.checkpoints;
  }

  // ----- grants -----

  /** Steps of a grant change rows of its own campaign only. */
  predicate OthersKept(l: Ledger, k: Ledger, root: SessionId) {
    && (forall s :: s in l.members && l.members[s].root != root ==> s in k.members && k.members[s] == l.members[s])
    && (forall s :: s in k.members && k.members[s].root != root ==> s in l.members && k.members[s] == l.members[s])
    && (forall r :: r != root && r in k.budgets ==> r in l.budgets && k.budgets[r].authority == l.budgets[r].authority)
  }

  lemma OthersKeptTwice(l: Ledger, k: Ledger, j: Ledger, root: SessionId)
    requires OthersKept(l, k, root) && OthersKept(k, j, root)
    ensures OthersKept(l, j, root)
  {
  }

  lemma OthersHoldAsMuch(l: Ledger, k: Ledger, root: SessionId, r: SessionId, d: Dim)
    requires OthersKept(l, k, root) && r != root
    ensures Held(k, r, d) == Held(l, r, d)
  {
    SumSame(k.members, l.members, HeldIn(r, d));
  }

  lemma ReadKeepsOthers(l: Ledger, w: World, root: SessionId)
    ensures OthersKept(l, Read(l, w, root), root)
  {
    var k := SettleAll(l, w, root, EndedMembers(l, w, root));
    StandingKeepsRows(k, w, root);
    StandingKeepsAuthority(k, w, root);
    SettleAllKeepsOthers(l, w, root);
    OthersKeptTwice(l, k, Standing(k, w, root), root);
  }

  lemma SettleAllKeepsOthers(l: Ledger, w: World, root: SessionId)
    ensures OthersKept(l, SettleAll(l, w, root, EndedMembers(l, w, root)), root)
  {
  }

  lemma {:induction false} EnrollKeepsOthers(l: Ledger, root: SessionId, tree: seq<TreeRow>, resumed: bool)
    requires OwnTree(l, root, tree)
    ensures OthersKept(l, Enroll(l, root, tree, resumed), root)
    decreases |tree|
  {
    if tree != [] {
      EnrollKeepsOthers(l, root, tree[..|tree| - 1], resumed);
      var k, row := Enroll(l, root, tree[..|tree| - 1], resumed), tree[|tree| - 1];
      assert row in tree;
      EnrollRowKeepsOthers(k, root, row, resumed);
      OthersKeptTwice(l, k, EnrollRow(k, root, row, resumed), root);
    }
  }

  lemma EnrollRowKeepsOthers(l: Ledger, root: SessionId, row: TreeRow, resumed: bool)
    requires row.session in l.members ==> l.members[row.session].root == root
    ensures OthersKept(l, EnrollRow(l, root, row, resumed), root)
  {
  }

  lemma DividedKeepsOthers(before: Ledger, used: Ledger, root: SessionId, authority: Authority, first: bool)
    requires forall s :: s in before.members && s in used.members ==> used.members[s].root == before.members[s].root
    ensures OthersKept(used, Divided(before, used, root, authority, first), root)
  {
  }

  lemma DividedKeepsCharges(before: Ledger, used: Ledger, root: SessionId, authority: Authority, first: bool)
    ensures var k := Divided(before, used, root, authority, first);
      ChargesKept(used, k) && (Sane(used) ==> Sane(k)) && k.settlements == used.settlements
  {
  }

  lemma {:induction false} EnrollKeepsCharges(l: Ledger, root: SessionId, tree: seq<TreeRow>, resumed: bool)
    ensures var k := Enroll(l, root, tree, resumed);
      ChargesKept(l, k) && (Sane(l) ==> Sane(k)) && k.settlements == l.settlements && k.budgets == l.budgets
    decreases |tree|
  {
    if tree != [] {
      EnrollKeepsCharges(l, root, tree[..|tree| - 1], resumed);
    }
  }

  lemma ReadStaysBacked(l: Ledger, w: World, root: SessionId)
    requires Backed(l)
    ensures Backed(Read(l, w, root))
  {
    var k := SettleAll(l, w, root, EndedMembers(l, w, root));
    SettleAllStaysBacked(l, w, root, EndedMembers(l, w, root));
    StandingKeepsRows(k, w, root);
    assert ChargesKept(k, Standing(k, w, root));
    GrownStaysBacked(k, Standing(k, w, root));
  }

  /** What every stage of a grant keeps. */
  predicate Stage(l: Ledger, k: Ledger, root: SessionId) {
    ChargesKept(l, k) && (Sane(l) ==> Sane(k)) && (Backed(l) ==> Backed(k)) && OthersKept(l, k, root)
  }

  lemma StageTwice(l: Ledger, k: Ledger, j: Ledger, root: SessionId)
    requires Stage(l, k, root) && Stage(k, j, root)
    ensures Stage(l, j, root)
  {
    ChargesKeptTwice(l, k, j);
    OthersKeptTwice(l, k, j, root);
  }

  lemma ReadIsStage(l: Ledger, w: World, root: SessionId)
    ensures Stage(l, Read(l, w, root), root)
  {
    ReadIsQuiet(l, w, root);
    QuietKeepsCharges(l, Read(l, w, root));
    ReadKeepsOthers(l, w, root);
    if Backed(l) { ReadStaysBacked(l, w, root); }
  }

  lemma EnrollIsStage(read: Ledger, root: SessionId, authority: Authority, tree: seq<TreeRow>, resumed: bool)
    requires OwnTree(read, root, tree)
    ensures Stage(read, Enroll(Granted(read, root, authority), root, tree, resumed), root)
  {
    var granted := Granted(read, root, authority);
    var k := Enroll(granted, root, tree, resumed);
    EnrollKeepsCharges(granted, root, tree, resumed);
    EnrollKeepsOthers(granted, root, tree, resumed);
    assert OthersKept(read, granted, root);
    OthersKeptTwice(read, granted, k, root);
    if Backed(read) { GrownStaysBacked(read, k); }
  }

  lemma DivideIsStage(before: Ledger, used: Ledger, root: SessionId, authority: Authority, first: bool)
    requires ChargesKept(before, used)
    ensures Stage(used, Divided(before, used, root, authority, first), root)
  {
    var k := Divided(before, used, root, authority, first);
    forall s | s in before.members && s in used.members ensures used.members[s].root == before.members[s].root {
      assert Grown(before.members[s], used.members[s]);
    }
    DividedKeepsOthers(before, used, root, authority, first);
    DividedKeepsCharges(before, used, root, authority, first);
    if Backed(used) { GrownStaysBacked(used, k); }
  }

  lemma ReservedIsStage(l: Ledger, w: World, root: SessionId, authority: Authority, first: bool)
    ensures Stage(l, Reserved(l, w, root, authority, first), root)
  {
    var used := Read(l, w, root);
    var divided := Divided(l, used, root, authority, first);
    ReadIsStage(l, w, root);
    DivideIsStage(l, used, root, authority, first);
    ReadIsStage(divided, w, root);
    StageTwice(l, used, divided, root);
    StageTwice(l, divided, Read(divided, w, root), root);
  }

  lemma ForgivenIsStage(l: Ledger, root: SessionId)
    ensures Stage(l, Forgiven(l, root), root)
    ensures Forgiven(l, root).budgets == l.budgets
  {
    var k := Forgiven(l, root);
    assert ChargesKept(l, k);
    if Backed(l) { GrownStaysBacked(l, k); }
  }

  lemma ForgivenTotal(l: Ledger, root: SessionId, d: Dim)
    ensures Held(Forgiven(l, root), root, d) <= Total(l, root, d)
  {
    var k := Forgiven(l, root);
    SumSame(k.members, l.members, CoveredIn(root, d));
    TotalSplits(k, root, d);
  }

  lemma AuthorizeFootprint(l: Ledger, w: World, root: SessionId, authority: Authority, tree: seq<TreeRow>)
    requires Authorize(l, w, root, authority, tree).Ok?
    ensures var read := Read(l, w, root);
      var enrolled := Enroll(Granted(read, root, authority), root, tree, Resumes(read, root));
      var reserved := Reserved(enrolled, w, root, authority, root !in read.budgets);
      Fits(reserved, w, root) && Authorize(l, w, root, authority, tree).ledger == Forgiven(reserved, root)
  {
  }

  lemma AuthorizeIsStage(l: Ledger, w: World, root: SessionId, authority: Authority, tree: seq<TreeRow>)
    requires Authorize(l, w, root, authority, tree).Ok? && OwnTree(l, root, tree)
    ensures Stage(l, Authorize(l, w, root, authority, tree).ledger, root)
  {
    AuthorizeFootprint(l, w, root, authority, tree);
    var read := Read(l, w, root);
    var enrolled := Enroll(Granted(read, root, authority), root, tree, Resumes(read, root));
    var reserved := Reserved(enrolled, w, root, authority, root !in read.budgets);
    ReadIsStage(l, w, root);
    ReadKeepsTree(l, w, root, tree);
    EnrollIsStage(read, root, authority, tree, Resumes(read, root));
    ReservedIsStage(enrolled, w, root, authority, root !in read.budgets);
    ForgivenIsStage(reserved, root);
    StageTwice(l, read, enrolled, root);
    StageTwice(l, enrolled, reserved, root);
    StageTwice(l, reserved, Forgiven(reserved, root), root);
  }

  lemma ReadKeepsTree(l: Ledger, w: World, root: SessionId, tree: seq<TreeRow>)
    requires OwnTree(l, root, tree)
    ensures OwnTree(Read(l, w, root), root, tree)
  {
    ReadIsQuiet(l, w, root);
    forall row | row in tree && row.session in Read(l, w, root).members ensures Read(l, w, root).members[row.session].root == root {
      assert QuietRow(l.members[row.session], Read(l, w, root).members[row.session]);
    }
  }

  lemma AuthorizeStaysSound(l: Ledger, w: World, root: SessionId, authority: Authority, tree: seq<TreeRow>)
    requires Authorize(l, w, root, authority, tree).Ok? && OwnTree(l, root, tree) && Sound(l)
    ensures Sound(Authorize(l, w, root, authority, tree).ledger)
  {
    AuthorizeIsStage(l, w, root, authority, tree);
    AuthorizeFootprint(l, w, root, authority, tree);
    var read := Read(l, w, root);
    var enrolled := Enroll(Granted(read, root, authority), root, tree, Resumes(read, root));
    var reserved := Reserved(enrolled, w, root, authority, root !in read.budgets);
    ForgivenIsStage(reserved, root);
    FittingConserves(l, reserved, Authorize(l, w, root, authority, tree).ledger, w, root);
  }

  lemma FittingConserves(l: Ledger, reserved: Ledger, k: Ledger, w: World, root: SessionId)
    requires Conserved(l) && OthersKept(l, k, root)
    requires Fits(reserved, w, root) && k == Forgiven(reserved, root)
    ensures Conserved(k)
  {
    forall r, d | r in k.budgets && Ceiling(k.budgets[r].authority, d).Some?
      ensures Held(k, r, d) <= Ceiling(k.budgets[r].authority, d).value
    {
      if r == root {
        ForgivenTotal(reserved, root, d);
      } else {
        OthersHoldAsMuch(l, k, root, r, d);
      }
    }
  }

  // ----- a child that never launched -----

  lemma NeverLaunchedStaysSound(l: Ledger, s: SessionId)
    requires Sound(l)
    ensures Sound(ReleaseUnlaunched(l, s))
  {
    var k := ReleaseUnlaunched(l, s);
    forall t | t in k.members ensures SaneRow(k.members[t]) {
      assert SaneRow(l.members[t]);
    }
    forall t | t in k.settlements ensures t in k.members && AllBacked(k.settlements[t], k.members[t]) {
      assert AllBacked(l.settlements[t], l.members[t]);
    }
    forall r, d | r in k.budgets && Ceiling(k.budgets[r].authority, d).Some?
      ensures Held(k, r, d) <= Ceiling(k.budgets[r].authority, d).value
    {
      SumWithout(l.members, s, HeldIn(r, d));
      if s in l.members { assert SaneRow(l.members[s]); }
    }
  }

  // ----- every run -----

  lemma BookingsStaySound(l: Ledger, b: Booking)
    requires Allowed(l, Books(b))
    ensures Sound(l) ==> Sound(Book(l, b))
    ensures !b.NeverLaunched? ==> ChargesKept(l, Book(l, b))
  {
    if Book(l, b) == l { return; }
    match b
    case Admission(w, root, a, user, activate, launch, g) => AdmitStaysSound(l, w, root, a, user, activate, launch, g);
    case Restart(w, root, s, g, sent) => RelaunchStaysSound(l, w, root, s, g, sent);
    case Grant(w, root, authority, tree) =>
      AuthorizeIsStage(l, w, root, authority, tree);
      if Sound(l) { AuthorizeStaysSound(l, w, root, authority, tree); }
    case NeverLaunched(s) => if Sound(l) { NeverLaunchedStaysSound(l, s); }
  }

  lemma StepsStaySound(l: Ledger, op: Op)
    requires Allowed(l, op)
    ensures Sound(l) ==> Sound(Apply(l, op))
    ensures !(op.Books? && op.booking.NeverLaunched?) ==> ChargesKept(l, Apply(l, op))
  {
    match op
    case Books(b) => BookingsStaySound(l, b);
    case Receives(r) =>
      ReceiptsAreQuiet(l, r);
      QuietKeepsCharges(l, Receive(l, r));
  }

  lemma {:induction false} RunsStaySound(l: Ledger, run: Run)
    requires Sound(l) && AllAllowed(l, run)
    ensures Sound(After(l, run))
    decreases run
  {
    match run
    case End =>
    case Step(op, rest) =>
      StepsStaySound(l, op);
      RunsStaySound(Apply(l, op), rest);
  }

  lemma EmptyIsSound()
    ensures Sound(EMPTY)
  {
    forall r, d ensures Held(EMPTY, r, d) == 0 {}
  }

  /** Conservation: after every run, whatever the other tables said at each step, a campaign's spend
      and unspent reservations are within its ceiling and the usage reported beyond reservations
      since its last grant. */
  lemma AllowanceConserved(run: Run, root: SessionId, d: Dim)
    requires AllAllowed(EMPTY, run)
    requires root in After(EMPTY, run).budgets && Ceiling(After(EMPTY, run).budgets[root].authority, d).Some?
    ensures var l := After(EMPTY, run);
      Actual(l, root, d) + Outstanding(l, root, d) <= Ceiling(l.budgets[root].authority, d).value + Excess(l, root, d)
  {
    EmptyIsSound();
    RunsStaySound(EMPTY, run);
    TotalSplits(After(EMPTY, run), root, d);
  }

  predicate Removes(op: Op, s: SessionId) {
    op.Books? && op.booking == NeverLaunched(s)
  }

  predicate NeverRemoves(run: Run, s: SessionId) {
    run.Step? ==> !Removes(run.op, s) && NeverRemoves(run.rest, s)
  }

  /** No run lowers the charge of a member or moves it to another campaign, unless it was a child that
      never launched. */
  lemma {:induction false} ChargesNeverFall(l: Ledger, run: Run, s: SessionId)
    requires s in l.members && AllAllowed(l, run) && NeverRemoves(run, s)
    ensures s in After(l, run).members && Grown(l.members[s], After(l, run).members[s])
    decreases run
  {
    match run
    case End =>
    case Step(op, rest) =>
      var k := Apply(l, op);
      StepsStaySound(l, op);
      assert s in k.members && Grown(l.members[s], k.members[s]);
      ChargesNeverFall(k, rest, s);
  }
}
