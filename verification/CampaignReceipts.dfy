/** Receipts over whole runs: those of an older generation are inert, a released generation never
    settles again, and an attestation states its member's exact charge. */
module CampaignReceipts {
  import opened CampaignBudget
  import opened CampaignRuns
  import opened CampaignShares
  import opened Options

  // ----- attestation -----

  /** A completion attested after any run states exactly what its member is charged, for the
      generation the member has. */
  lemma AttestationIsExact(run: Run, s: SessionId)
    requires AllAllowed(EMPTY, run)
    ensures var l := After(EMPTY, run);
      Attested(l, s).Some? ==>
        var a := Attested(l, s).value;
        && s in l.members && !l.members[s].active
        && a == Attestation(l.members[s].root, a.checkpoint, l.members[s].cost.spent, l.members[s].tools.spent)
        && a.checkpoint.generation == l.members[s].generation
  {
    var l := After(EMPTY, run);
    EmptyIsSound();
    RunsStaySound(EMPTY, run);
    if Attested(l, s).Some? {
      var row := Rows(l, s)[|Rows(l, s)| - 1];
      assert row in l.settlements[s] && AllBacked(l.settlements[s], l.members[s]);
    }
  }

  /** A settled checkpoint that its runner reports again settles to the very same ledger. */
  lemma SettlingReplays(l: Ledger, w: World, s: SessionId, epoch: Option<nat>, seen: nat)
    requires s in l.checkpoints
    requires SettleCheckpoint(l, w, s, epoch, seen).1
    ensures var k := SettleCheckpoint(l, w, s, epoch, seen).0;
      SettleCheckpoint(RecordCheckpoint(k, s, l.checkpoints[s]), w, s, epoch, seen) == (k, true)
  {
    var k := SettleCheckpoint(l, w, s, epoch, seen).0;
    var again := RecordCheckpoint(k, s, l.checkpoints[s]);
    RecordedOnce(Rows(l, s), Settlement(Final(l.checkpoints[s]), k.members[s].cost.spent, k.members[s].tools.spent));
    assert again.checkpoints - {s} == k.checkpoints;
    SettledTwice(k, again, s, Final(l.checkpoints[s]), l.checkpoints[s].cost);
  }

  lemma RecordedOnce(rows: seq<Settlement>, row: Settlement)
    ensures exists r :: r in Recorded(rows, row) && r.evidence == row.evidence
    ensures forall other: Settlement :: other.evidence == row.evidence ==> Recorded(Recorded(rows, row), other) == Recorded(rows, row)
  {
    if !(exists r :: r in rows && r.evidence == row.evidence) {
      assert (rows + [row])[|rows|] == row;
    }
  }

  lemma SettledTwice(k: Ledger, again: Ledger, s: SessionId, evidence: Evidence, cost: nat)
    requires again == k.(checkpoints := again.checkpoints) && again.checkpoints - {s} == k.checkpoints
    requires s in k.members && !k.members[s].active && cost <= k.members[s].cost.spent
    requires exists r :: r in Rows(k, s) && r.evidence == evidence
    ensures Settle(again, s, evidence, cost, 0) == k
  {
    var j := Settle(again, s, evidence, cost, 0);
    assert j.members == k.members;
    assert j.settlements == k.settlements;
  }

  // ----- generations -----

  predicate NotAt(l: Ledger, s: SessionId, g: Generation) {
    s in l.members ==> l.members[s].generation != g
  }

  /** A receipt that names generation `g` of `s`. */
  predicate Names(op: Op, s: SessionId, g: Generation) {
    op.Receives? &&
    match op.receipt
    case CheckpointReport(t, c) => t == s && c.generation == g
    case HoldReport(t, hold) => t == s && hold.generation == g
    case MediaResult(t, _, h, _) => t == s && h == g
    case PersonRelease(_, _, t, h) => t == s && h == g
    case _ => false
  }

  /** An operation that would give `s` the generation `g`; a generation is drawn at random once. */
  predicate Renews(op: Op, s: SessionId, g: Generation) {
    op.Books? &&
    match op.booking
    case Admission(_, _, a, _, _, _, h) => a.session == s && h == g
    case Restart(_, _, t, h, _) => t == s && h == g
    case Grant(_, _, _, tree) => TreeRenews(tree, s, g)
    case NeverLaunched(_) => false
  }

  predicate TreeRenews(tree: seq<TreeRow>, s: SessionId, g: Generation) {
    exists row :: row in tree && row.session == s && row.renewed == g
  }

  predicate NeverRenews(run: Run, s: SessionId, g: Generation) {
    run.Step? ==> !Renews(run.op, s, g) && NeverRenews(run.rest, s, g)
  }

  /** A receipt naming a generation its session does not have changes nothing at all. */
  lemma StaleIsInert(l: Ledger, op: Op, s: SessionId, g: Generation)
    requires NotAt(l, s, g) && Names(op, s, g)
    ensures Apply(l, op) == l
  {
    if op.receipt.PersonRelease? {
      ReleaseFootprint(l, op.receipt.world, op.receipt.root, s, g);
    }
  }

  lemma SettleAllKeepsGenerations(l: Ledger, w: World, root: SessionId, ids: set<SessionId>)
    ensures SameGenerations(l, SettleAll(l, w, root, ids))
  {
  }

  lemma ReadKeepsGenerations(l: Ledger, w: World, root: SessionId)
    ensures SameGenerations(l, Read(l, w, root))
    ensures Read(l, w, root).releases == l.releases
  {
    SettleAllKeepsGenerations(l, w, root, EndedMembers(l, w, root));
    StandingKeepsRows(SettleAll(l, w, root, EndedMembers(l, w, root)), w, root);
  }

  lemma ReceiptsKeepGenerations(l: Ledger, r: Receipt)
    ensures SameGenerations(l, Receive(l, r))
  {
    if r.ReadView? {
      ReadKeepsGenerations(l, r.world, r.root);
    } else {
      OtherReceiptsAreQuiet(l, r);
    }
  }

  lemma AdmitStaysAway(l: Ledger, w: World, root: SessionId, a: Allocation, user: Limits, activate: bool, launch: bool, h: Generation,
                       s: SessionId, g: Generation)
    requires NotAt(l, s, g) && (a.session == s ==> h != g)
    requires Admit(l, w, root, a, user, activate, launch, h).Ok?
    ensures NotAt(Admit(l, w, root, a, user, activate, launch, h).ledger, s, g)
  {
    ReadKeepsGenerations(l, w, root);
    AdmitBooks(l, w, root, a, user, activate, launch, h);
  }

  lemma RestartStaysAway(l: Ledger, w: World, root: SessionId, t: SessionId, h: Generation, sent: bool, s: SessionId, g: Generation)
    requires NotAt(l, s, g) && (t == s ==> h != g)
    requires Relaunch(l, w, root, t, h, sent).Ok?
    ensures NotAt(Relaunch(l, w, root, t, h, sent).ledger, s, g)
  {
    RelaunchFootprint(l, w, root, t, h, sent);
    AdmitStaysAway(l, w, root, Allocation(t, l.members[t].cost.limit, l.members[t].tools.limit), Limits(None, None), true, true, h, s, g);
  }

  lemma {:induction false} EnrollStaysAway(l: Ledger, root: SessionId, tree: seq<TreeRow>, resumed: bool, s: SessionId, g: Generation)
    requires NotAt(l, s, g) && !TreeRenews(tree, s, g)
    ensures NotAt(Enroll(l, root, tree, resumed), s, g)
    decreases |tree|
  {
    if tree != [] {
      var row := tree[|tree| - 1];
      assert row in tree;
      assert !TreeRenews(tree[..|tree| - 1], s, g);
      EnrollStaysAway(l, root, tree[..|tree| - 1], resumed, s, g);
    }
  }

  /** A division changes limits only. */
  lemma DividedFootprint(before: Ledger, used: Ledger, root: SessionId, authority: Authority, first: bool)
    ensures var k := Divided(before, used, root, authority, first);
      SameGenerations(used, k) && k.releases == used.releases && k.settlements == used.settlements
  {
  }

  lemma SameGenerationsTwice(l: Ledger, k: Ledger, j: Ledger)
    requires SameGenerations(l, k) && SameGenerations(k, j)
    ensures SameGenerations(l, j)
  {
  }

  lemma ReservedKeepsGenerations(l: Ledger, w: World, root: SessionId, authority: Authority, first: bool)
    ensures SameGenerations(l, Reserved(l, w, root, authority, first))
  {
    var used := Read(l, w, root);
    var divided := Divided(l, used, root, authority, first);
    ReadKeepsGenerations(l, w, root);
    DividedFootprint(l, used, root, authority, first);
    ReadKeepsGenerations(divided, w, root);
    SameGenerationsTwice(l, used, divided);
    SameGenerationsTwice(l, divided, Read(divided, w, root));
  }

  lemma ForgivenFootprint(l: Ledger, root: SessionId)
    ensures var k := Forgiven(l, root);
      SameGenerations(l, k) && k.releases == l.releases && k.settlements == l.settlements
  {
  }

  lemma AwayAlike(l: Ledger, k: Ledger, s: SessionId, g: Generation)
    requires NotAt(l, s, g) && SameGenerations(l, k)
    ensures NotAt(k, s, g)
  {
  }

  lemma GrantStaysAway(l: Ledger, w: World, root: SessionId, authority: Authority, tree: seq<TreeRow>, s: SessionId, g: Generation)
    requires NotAt(l, s, g) && !TreeRenews(tree, s, g)
    requires Authorize(l, w, root, authority, tree).Ok?
    ensures NotAt(Authorize(l, w, root, authority, tree).ledger, s, g)
  {
    AuthorizeFootprint(l, w, root, authority, tree);
    var read := Read(l, w, root);
    var enrolled := Enroll(Granted(read, root, authority), root, tree, Resumes(read, root));
    var reserved := Reserved(enrolled, w, root, authority, root !in read.budgets);
    ReadKeepsGenerations(l, w, root);
    AwayAlike(l, read, s, g);
    EnrollStaysAway(Granted(read, root, authority), root, tree, Resumes(read, root), s, g);
    ReservedKeepsGenerations(enrolled, w, root, authority, root !in read.budgets);
    AwayAlike(enrolled, reserved, s, g);
    ForgivenFootprint(reserved, root);
    AwayAlike(reserved, Forgiven(reserved, root), s, g);
  }

  lemma StepsStayAway(l: Ledger, op: Op, s: SessionId, g: Generation)
    requires NotAt(l, s, g) && !Renews(op, s, g)
    ensures NotAt(Apply(l, op), s, g)
  {
    match op
    case Receives(r) => ReceiptsKeepGenerations(l, r);
    case Books(b) => if Book(l, b) != l { BookingsStayAway(l, b, s, g); }
  }

  lemma BookingsStayAway(l: Ledger, b: Booking, s: SessionId, g: Generation)
    requires NotAt(l, s, g) && !Renews(Books(b), s, g) && Book(l, b) != l
    ensures NotAt(Book(l, b), s, g)
  {
    match b
    case Admission(w, root, a, user, activate, launch, h) => AdmitStaysAway(l, w, root, a, user, activate, launch, h, s, g);
    case Restart(w, root, t, h, sent) => RestartStaysAway(l, w, root, t, h, sent, s, g);
    case Grant(w, root, authority, tree) => GrantStaysAway(l, w, root, authority, tree, s, g);
    case NeverLaunched(_) =>
  }

  /** The run without the receipts that name `g` of `s`. */
  function Without(run: Run, s: SessionId, g: Generation): Run {
    match run
    case End => End
    case Step(op, rest) => if Names(op, s, g) then Without(rest, s, g) else Step(op, Without(rest, s, g))
  }

  /** Once a session has left a generation for good, every checkpoint, hold, person's release and
      media result naming it can be struck from the run: no charge, slot, reservation, settlement or
      anything else in the ledger differs. */
  lemma {:induction false} StaleReceiptsNeverMatter(l: Ledger, run: Run, s: SessionId, g: Generation)
    requires NotAt(l, s, g) && NeverRenews(run, s, g)
    ensures After(l, run) == After(l, Without(run, s, g))
    decreases run
  {
    match run
    case End =>
    case Step(op, rest) =>
      if Names(op, s, g) {
        StaleIsInert(l, op, s, g);
      } else {
        StepsStayAway(l, op, s, g);
      }
      StaleReceiptsNeverMatter(Apply(l, op), rest, s, g);
  }

  /** Replacing a dispatch leaves the generation it replaces, and keeps no receipt of it. */
  lemma ReplacedGenerationIsLeft(l: Ledger, w: World, s: SessionId, renewed: Generation)
    requires s in l.members && renewed != l.members[s].generation
    ensures var k := ReplaceDispatch(l, w, s, renewed);
      NotAt(k, s, l.members[s].generation) && s !in k.checkpoints
  {
  }

  // ----- releases -----

  /** The settlements of `s` on evidence of generation `g`. */
  function Named(l: Ledger, s: SessionId, g: Generation): set<Settlement> {
    set row | row in Rows(l, s) && EvidenceGeneration(row.evidence) == g
  }

  predicate StaysReleased(l: Ledger, k: Ledger, s: SessionId, g: Generation) {
    (s, g) in l.releases ==> (s, g) in k.releases && Named(k, s, g) == Named(l, s, g)
  }

  lemma SettlingStaysReleased(l: Ledger, k: Ledger, exempt: set<(SessionId, Generation)>, s: SessionId, g: Generation)
    requires Settling(l, k, exempt) && (s, g) !in exempt
    ensures StaysReleased(l, k, s, g)
  {
    if k.settlements != l.settlements {
      var t, evidence :| SettledUnreleased(l, k, t, evidence, exempt);
      if t == s && (s, g) in l.releases {
        assert EvidenceGeneration(evidence) != g;
        OtherRowsKeepNamed(Rows(l, s), Settlement(evidence, k.members[s].cost.spent, k.members[s].tools.spent), g);
      }
    }
  }

  lemma OtherRowsKeepNamed(rows: seq<Settlement>, row: Settlement, g: Generation)
    requires EvidenceGeneration(row.evidence) != g
    ensures (set r | r in Recorded(rows, row) && EvidenceGeneration(r.evidence) == g) == (set r | r in rows && EvidenceGeneration(r.evidence) == g)
  {
  }

  lemma SettleAllStaysReleased(l: Ledger, w: World, root: SessionId, ids: set<SessionId>, s: SessionId, g: Generation)
    ensures StaysReleased(l, SettleAll(l, w, root, ids), s, g)
  {
    if (s, g) in l.releases && s in ids && s in l.members && ProvenNow(l, w, s) && !Unaccountable(l, w, s) {
      var m := SettledMember(l.members[s], l.checkpoints[s].cost, 0);
      OtherRowsKeepNamed(Rows(l, s), Settlement(Final(l.checkpoints[s]), m.cost.spent, m.tools.spent), g);
    }
  }

  lemma ReadStaysReleased(l: Ledger, w: World, root: SessionId, s: SessionId, g: Generation)
    ensures StaysReleased(l, Read(l, w, root), s, g)
  {
    var k := SettleAll(l, w, root, EndedMembers(l, w, root));
    SettleAllStaysReleased(l, w, root, EndedMembers(l, w, root), s, g);
    StandingKeepsRows(k, w, root);
  }

  lemma BookingsStayReleased(l: Ledger, b: Booking, s: SessionId, g: Generation)
    requires Book(l, b) != l && b != NeverLaunched(s)
    ensures StaysReleased(l, Book(l, b), s, g)
  {
    match b
    case Admission(w, root, a, user, activate, launch, h) =>
      AdmitStaysReleased(l, w, root, a, user, activate, launch, h, s, g);
    case Restart(w, root, t, h, sent) =>
      RestartStaysReleased(l, w, root, t, h, sent, s, g);
    case Grant(w, root, authority, tree) =>
      GrantStaysReleased(l, w, root, authority, tree, s, g);
    case NeverLaunched(_) =>
  }

  lemma AdmitStaysReleased(l: Ledger, w: World, root: SessionId, a: Allocation, user: Limits, activate: bool, launch: bool, h: Generation,
                           s: SessionId, g: Generation)
    requires Admit(l, w, root, a, user, activate, launch, h).Ok?
    ensures StaysReleased(l, Admit(l, w, root, a, user, activate, launch, h).ledger, s, g)
  {
    AdmitBooks(l, w, root, a, user, activate, launch, h);
    ReadStaysReleased(l, w, root, s, g);
    ReleasedAlike(Read(l, w, root), Admit(l, w, root, a, user, activate, launch, h).ledger, s, g);
  }

  lemma RestartStaysReleased(l: Ledger, w: World, root: SessionId, t: SessionId, h: Generation, sent: bool, s: SessionId, g: Generation)
    requires Relaunch(l, w, root, t, h, sent).Ok?
    ensures StaysReleased(l, Relaunch(l, w, root, t, h, sent).ledger, s, g)
  {
    RelaunchFootprint(l, w, root, t, h, sent);
    var a := Allocation(t, l.members[t].cost.limit, l.members[t].tools.limit);
    var k := Admit(l, w, root, a, Limits(None, None), true, true, h).ledger;
    AdmitStaysReleased(l, w, root, a, Limits(None, None), true, true, h, s, g);
    ReleasedAlike(k, Relaunch(l, w, root, t, h, sent).ledger, s, g);
  }

  lemma ReleasedTwice(l: Ledger, k: Ledger, j: Ledger, s: SessionId, g: Generation)
    requires StaysReleased(l, k, s, g) && StaysReleased(k, j, s, g)
    ensures StaysReleased(l, j, s, g)
  {
  }

  lemma ReleasedAlike(l: Ledger, k: Ledger, s: SessionId, g: Generation)
    requires k.settlements == l.settlements && k.releases == l.releases
    ensures StaysReleased(l, k, s, g)
  {
  }

  lemma ReservedStaysReleased(l: Ledger, w: World, root: SessionId, authority: Authority, first: bool, s: SessionId, g: Generation)
    ensures StaysReleased(l, Reserved(l, w, root, authority, first), s, g)
  {
    var used := Read(l, w, root);
    var divided := Divided(l, used, root, authority, first);
    ReadStaysReleased(l, w, root, s, g);
    DividedFootprint(l, used, root, authority, first);
    ReleasedAlike(used, divided, s, g);
    ReadStaysReleased(divided, w, root, s, g);
    ReleasedTwice(l, used, divided, s, g);
    ReleasedTwice(l, divided, Read(divided, w, root), s, g);
  }

  lemma {:induction false} EnrollKeepsReleases(l: Ledger, root: SessionId, tree: seq<TreeRow>, resumed: bool)
    ensures Enroll(l, root, tree, resumed).releases == l.releases
    decreases |tree|
  {
    if tree != [] {
      EnrollKeepsReleases(l, root, tree[..|tree| - 1], resumed);
    }
  }

  lemma EnrolledStaysReleased(read: Ledger, root: SessionId, authority: Authority, tree: seq<TreeRow>, resumed: bool, s: SessionId, g: Generation)
    ensures StaysReleased(read, Enroll(Granted(read, root, authority), root, tree, resumed), s, g)
  {
    var granted := Granted(read, root, authority);
    EnrollKeepsCharges(granted, root, tree, resumed);
    EnrollKeepsReleases(granted, root, tree, resumed);
    ReleasedAlike(read, Enroll(granted, root, tree, resumed), s, g);
  }

  lemma GrantStaysReleased(l: Ledger, w: World, root: SessionId, authority: Authority, tree: seq<TreeRow>, s: SessionId, g: Generation)
    requires Authorize(l, w, root, authority, tree).Ok?
    ensures StaysReleased(l, Authorize(l, w, root, authority, tree).ledger, s, g)
  {
    AuthorizeFootprint(l, w, root, authority, tree);
    var read := Read(l, w, root);
    var enrolled := Enroll(Granted(read, root, authority), root, tree, Resumes(read, root));
    var reserved := Reserved(enrolled, w, root, authority, root !in read.budgets);
    ReadStaysReleased(l, w, root, s, g);
    EnrolledStaysReleased(read, root, authority, tree, Resumes(read, root), s, g);
    ReservedStaysReleased(enrolled, w, root, authority, root !in read.budgets, s, g);
    ForgivenFootprint(reserved, root);
    ReleasedAlike(reserved, Forgiven(reserved, root), s, g);
    ReleasedTwice(l, read, enrolled, s, g);
    ReleasedTwice(l, enrolled, reserved, s, g);
    ReleasedTwice(l, reserved, Forgiven(reserved, root), s, g);
  }

  /** Whether an operation is a media result naming the released generation, or removes the member. */
  predicate Overrides(op: Op, s: SessionId, g: Generation) {
    match op
    case Receives(r) => (s, g) in Exempt(r)
    case Books(b) => b == NeverLaunched(s)
  }

  predicate NeverOverrides(run: Run, s: SessionId, g: Generation) {
    run.Step? ==> !Overrides(run.op, s, g) && NeverOverrides(run.rest, s, g)
  }

  /** A generation a person released never settles again, in any run: neither its checkpoints, nor
      reads of the allowance, nor repeated releases add a settlement of it. */
  lemma {:induction false} ReleasedNeverSettlesAgain(l: Ledger, run: Run, s: SessionId, g: Generation)
    requires (s, g) in l.releases && NeverOverrides(run, s, g)
    ensures (s, g) in After(l, run).releases && Named(After(l, run), s, g) == Named(l, s, g)
    decreases run
  {
    match run
    case End =>
    case Step(op, rest) =>
      StepsStayReleased(l, op, s, g);
      ReleasedNeverSettlesAgain(Apply(l, op), rest, s, g);
  }

  lemma StepsStayReleased(l: Ledger, op: Op, s: SessionId, g: Generation)
    requires !Overrides(op, s, g)
    ensures StaysReleased(l, Apply(l, op), s, g)
  {
    match op
    case Books(b) => if Book(l, b) != l { BookingsStayReleased(l, b, s, g); }
    case Receives(r) => ReceiptsStayReleased(l, r, s, g);
  }

  lemma ReceiptsStayReleased(l: Ledger, r: Receipt, s: SessionId, g: Generation)
    requires (s, g) !in Exempt(r)
    ensures StaysReleased(l, Receive(l, r), s, g)
  {
    if r.ReadView? {
      ReadStaysReleased(l, r.world, r.root, s, g);
    } else {
      OtherReceiptsAreQuiet(l, r);
      SettlingStaysReleased(l, Receive(l, r), Exempt(r), s, g);
    }
  }

  /** A media result does not look at releases: it settles a released generation again exactly when
      the member was made active at it again. */
  lemma MediaResultIgnoresReleases(l: Ledger, s: SessionId, g: Generation, cost: nat, tools: nat)
    requires (s, g) in l.releases && s in l.members && l.members[s].generation == g
    ensures var k := SettleMediaReview(l, s, l.members[s].root, g, PricedUsage(cost, tools)).0;
      (k != l <==> l.members[s].active) && (k != l ==> !k.members[s].active)
  {
    if l.members[s].active {
      assert !SettleMediaReview(l, s, l.members[s].root, g, PricedUsage(cost, tools)).0.members[s].active;
    }
  }

  const NO_CEILING: Budget := Budget(Authority(None, None, None), Active, false)

  lemma OpenAdmission(l: Ledger, w: World, root: SessionId, s: SessionId, g: Generation)
    requires root in l.budgets && l.budgets[root] == NO_CEILING && w.unpriced == {} && EndedMembers(l, w, root) == {}
    requires s in l.members ==> l.members[s].root == root && l.members[s].cost.limit.None? && l.members[s].tools.limit.None?
    ensures Book(l, Admission(w, root, Allocation(s, None, None), NONE, true, true, g))
         == Admitted(l, root, Allocation(s, None, None), NONE, true, g)
  {
    var a, k := Allocation(s, None, None), Admitted(l, root, Allocation(s, None, None), NONE, true, g);
    CalmReads(l, w, root);
    assert AdmissionError(l, w, root, a, NONE, true, g).None?;
    assert k.budgets[root := k.budgets[root]] == k.budgets;
    assert !AnyUnpriced(k, w, root);
  }

  lemma OpenGrant(w: World, root: SessionId)
    requires w.unpriced == {}
    ensures Book(EMPTY, Grant(w, root, Authority(None, None, None), [])) == EMPTY.(budgets := map[root := NO_CEILING])
  {
    var l := EMPTY.(budgets := map[root := NO_CEILING]);
    var ended := EndedMembers(EMPTY, w, root);
    assert ended == {};
    assert Read(EMPTY, w, root) == SettleAll(EMPTY, w, root, {}) == EMPTY;
    assert Granted(EMPTY, root, Authority(None, None, None)) == l;
    CalmReads(l, w, root);
    assert Divided(l, l, root, Authority(None, None, None), true).members == l.members;
    assert Forgiven(l, root).members == l.members;
  }

  const WORKING: World := World(map[], {}, {}, {}, {})

  /** The worker has ended, and nothing proves that its provider is gone. */
  function Finished(s: SessionId): World {
    WORKING.(sessions := map[s := Session(Completed, None, None, 0)])
  }

  /** A campaign without ceilings and its one worker, at generation `g`. */
  function OneWorker(root: SessionId, s: SessionId, g: Generation, hold: Option<Hold>, active: bool): Ledger {
    EMPTY.(budgets := map[root := NO_CEILING],
           members := map[s := Member(root, Meter(0, None, None, 0), Meter(0, None, None, 0), active, g, None, None, hold)])
  }

  function Freed(root: SessionId, s: SessionId, g: Generation, active: bool): Ledger {
    OneWorker(root, s, g, Some(Hold(g, FenceWithoutEvidence)), active).(
      settlements := map[s := [Settlement(Released(g), 0, 0)]],
      releases := map[(s, g) := SlotRelease(root, FenceWithoutEvidence, 0, 0, false)])
  }

  lemma CampaignGranted(root: SessionId) returns (op: Op)
    ensures Allowed(EMPTY, op) && Apply(EMPTY, op) == EMPTY.(budgets := map[root := NO_CEILING])
  {
    OpenGrant(WORKING, root);
    op := Books(Grant(WORKING, root, Authority(None, None, None), []));
  }

  lemma WorkerLaunched(root: SessionId, s: SessionId, g: Generation) returns (op: Op)
    ensures var l := EMPTY.(budgets := map[root := NO_CEILING]); Allowed(l, op) && Apply(l, op) == OneWorker(root, s, g, None, true)
  {
    var l, a := EMPTY.(budgets := map[root := NO_CEILING]), Allocation(s, None, None);
    assert EndedMembers(l, WORKING, root) == {};
    OpenAdmission(l, WORKING, root, s, g);
    assert Admitted(l, root, a, NONE, true, g).members == OneWorker(root, s, g, None, true).members;
    op := Books(Admission(WORKING, root, a, NONE, true, true, g));
  }

  lemma WorkerHeld(root: SessionId, s: SessionId, g: Generation) returns (op: Op)
    ensures var l := OneWorker(root, s, g, None, true);
      Allowed(l, op) && Apply(l, op) == OneWorker(root, s, g, Some(Hold(g, FenceWithoutEvidence)), true)
  {
    op := Receives(HoldReport(s, Hold(g, FenceWithoutEvidence)));
  }

  lemma SlotReleased(root: SessionId, s: SessionId, g: Generation) returns (op: Op)
    requires s != root
    ensures var l := OneWorker(root, s, g, Some(Hold(g, FenceWithoutEvidence)), true); Allowed(l, op) && Apply(l, op) == Freed(root, s, g, false)
  {
    var l := OneWorker(root, s, g, Some(Hold(g, FenceWithoutEvidence)), true);
    assert Releasable(l, Finished(s), s);
    assert Recorded([], Settlement(Released(g), 0, 0)) == [Settlement(Released(g), 0, 0)];
    op := Receives(PersonRelease(Finished(s), root, s, g));
  }

  lemma WorkerAdmittedAgain(root: SessionId, s: SessionId, g: Generation) returns (op: Op)
    ensures Allowed(Freed(root, s, g, false), op) && Apply(Freed(root, s, g, false), op) == Freed(root, s, g, true)
  {
    var l, a := Freed(root, s, g, false), Allocation(s, None, None);
    assert EndedMembers(l, WORKING, root) == {};
    OpenAdmission(l, WORKING, root, s, g);
    assert Admitted(l, root, a, NONE, true, g).members == Freed(root, s, g, true).members;
    op := Books(Admission(WORKING, root, a, NONE, true, true, g));
  }

  lemma Prepended(l: Ledger, op: Op, k: Ledger, rest: Run)
    requires Allowed(l, op) && Apply(l, op) == k && AllAllowed(k, rest)
    ensures AllAllowed(l, Step(op, rest)) && After(l, Step(op, rest)) == After(k, rest)
  {
  }

  /** A run in which a worker is launched and held, a person releases its slot, and it is admitted again. */
  lemma ReachesReleased(root: SessionId, s: SessionId, g: Generation) returns (run: Run)
    requires s != root
    ensures AllAllowed(EMPTY, run) && After(EMPTY, run) == Freed(root, s, g, true)
  {
    var l0, l1 := EMPTY.(budgets := map[root := NO_CEILING]), OneWorker(root, s, g, None, true);
    var l2, l3 := OneWorker(root, s, g, Some(Hold(g, FenceWithoutEvidence)), true), Freed(root, s, g, false);
    var again := WorkerAdmittedAgain(root, s, g);
    run := Step(again, End);
    Prepended(l3, again, Freed(root, s, g, true), End);
    var release := SlotReleased(root, s, g);
    Prepended(l2, release, l3, run);
    run := Step(release, run);
    var hold := WorkerHeld(root, s, g);
    Prepended(l1, hold, l2, run);
    run := Step(hold, run);
    var launch := WorkerLaunched(root, s, g);
    Prepended(l0, launch, l1, run);
    run := Step(launch, run);
    var grant := CampaignGranted(root);
    Prepended(EMPTY, grant, l0, run);
    run := Step(grant, run);
  }

  lemma SettlesTwice(root: SessionId, s: SessionId, g: Generation, cost: nat)
    ensures var k := SettleMediaReview(Freed(root, s, g, true), s, root, g, PricedUsage(cost, 0)).0;
      (s, g) in k.releases && s in k.members && !k.members[s].active && |Rows(k, s)| == 2
  {
    var rows := [Settlement(Released(g), 0, 0)];
    assert Rows(Freed(root, s, g, true), s) == rows;
    assert forall r :: r in rows ==> r.evidence == Released(g);
  }

  /** The state that this takes is reached: after this run a released generation is active again, and
      a media result settles it a second time. */
  lemma ReleasedSettlesAgain(root: SessionId, s: SessionId, g: Generation, cost: nat) returns (run: Run)
    requires s != root
    ensures AllAllowed(EMPTY, run)
    ensures var l := After(EMPTY, run);
      var k := SettleMediaReview(l, s, root, g, PricedUsage(cost, 0)).0;
      && (s, g) in l.releases && s in l.members && l.members[s].active && l.members[s].generation == g && |Rows(l, s)| == 1
      && s in k.members && !k.members[s].active && |Rows(k, s)| == 2
  {
    run := ReachesReleased(root, s, g);
    SettlesTwice(root, s, g, cost);
  }

  // ----- slots -----

  lemma OccupiedAfterBooking(read: Ledger, k: Ledger, w: World, root: SessionId, a: Allocation, user: Limits, activate: bool, g: Generation)
    requires Booked(read, k, w, root, a, user, activate, g)
    ensures OccupiedSlots(k, w, root) <= OccupiedSlots(read, w, root) + {a.session}
  {
    forall s | s in OccupiedSlots(k, w, root) && s != a.session ensures s in OccupiedSlots(read, w, root) {
      assert Occupying(k, w, s) <==> Occupying(read, w, s);
    }
  }

  /** Launching through `admit` never passes the concurrency a person granted: it leaves at most the
      larger of the limit and what was occupied. */
  lemma LaunchesStayWithinConcurrency(l: Ledger, w: World, root: SessionId, a: Allocation, user: Limits, activate: bool, launch: bool, g: Generation)
    requires Admit(l, w, root, a, user, activate, launch, g).Ok? && (activate ==> launch)
    ensures var read, k := Read(l, w, root), Admit(l, w, root, a, user, activate, launch, g).ledger;
      && root in read.budgets
      && var limit := read.budgets[root].authority.concurrency;
        limit.Some? ==>
          |OccupiedSlots(k, w, root)| <= (if |OccupiedSlots(read, w, root)| < limit.value then limit.value else |OccupiedSlots(read, w, root)|)
  {
    var read := Read(l, w, root);
    AdmitBooks(l, w, root, a, user, activate, launch, g);
    BookedSlots(read, Admit(l, w, root, a, user, activate, launch, g).ledger, w, root, a, user, activate, launch, g);
  }

  lemma BookedSlots(read: Ledger, k: Ledger, w: World, root: SessionId, a: Allocation, user: Limits, activate: bool, launch: bool, g: Generation)
    requires AdmissionError(read, w, root, a, user, launch, g).None? && (activate ==> launch)
    requires Booked(read, k, w, root, a, user, activate, g)
    ensures root in read.budgets
    ensures var limit := read.budgets[root].authority.concurrency;
      limit.Some? ==>
        |OccupiedSlots(k, w, root)| <= (if |OccupiedSlots(read, w, root)| < limit.value then limit.value else |OccupiedSlots(read, w, root)|)
  {
    var was, now := OccupiedSlots(read, w, root), OccupiedSlots(k, w, root);
    OccupiedAfterBooking(read, k, w, root, a, user, activate, g);
    if a.session in now && a.session !in was {
      assert |was + {a.session}| == |was| + 1;
      Fewer(now, was + {a.session});
    } else {
      assert now <= was;
      Fewer(now, was);
    }
  }

  lemma {:induction false} Fewer(x: set<SessionId>, y: set<SessionId>)
    requires x <= y
    ensures |x| <= |y|
    decreases |x|
  {
    if x != {} {
      var s :| s in x;
      Fewer(x - {s}, y - {s});
    }
  }
}
