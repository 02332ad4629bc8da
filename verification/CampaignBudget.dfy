/** The campaign allowance: its tables as one value, and every operation as a function on it.

    Amounts are whole micro-USD and whole tool calls. A `Meter` serves both, so each rule is written
    once. `CampaignBudgetLedger` performs the operations on mutable tables. */
module CampaignBudget {
  import opened Options

  type SessionId = string
  type Generation = string

  // ----- rows -----

  /** One metered dimension of a member: what it has spent, its allocation and the person's own
      ceiling, all cumulative. `excess` is a history variable that no operation reads: the part of
      `spent` that was reported beyond what the member's reservation covered when it was reported. */
  datatype Meter = Meter(spent: nat, limit: Option<nat>, userLimit: Option<nat>, excess: nat)
  {
    /** What the member counts for: its spend and, while it is active, its unspent allocation. */
    function Covered(active: bool): nat {
      if active && limit.Some? && limit.value > spent then limit.value else spent
    }

    /** A usage report, a peak that never lowers the charge. */
    function Charge(active: bool, reported: nat): Meter {
      if reported <= spent then this
      else
        var covered := Covered(active);
        this.(spent := reported, excess := excess + if reported > covered then reported - covered else 0)
    }
  }

  datatype HeldReason = OlderRunner | FenceWithoutEvidence | UnsupportedLocation

  datatype Hold = Hold(generation: Generation, reason: HeldReason)

  datatype Member = Member(root: SessionId, cost: Meter, tools: Meter, active: bool, generation: Generation,
                           absent: Option<Generation>, unprovable: Option<Generation>, hold: Option<Hold>)

  datatype Dim = Cost | Tools

  function MeterOf(m: Member, d: Dim): Meter {
    if d.Cost? then m.cost else m.tools
  }

  datatype Authority = Authority(costUsd: Option<nat>, toolCalls: Option<nat>, concurrency: Option<nat>)

  function Ceiling(a: Authority, d: Dim): Option<nat> {
    if d.Cost? then a.costUsd else a.toolCalls
  }

  datatype State = Active | Exhausted | Revoked | AccountingUnavailable

  datatype Budget = Budget(authority: Authority, state: State, costUnpriced: bool)

  /** A runner's final usage: the generation it ended, the history it covers and its cost. */
  datatype Checkpoint = Checkpoint(generation: Generation, historyEpoch: nat, throughSeq: nat, cost: nat)

  datatype Evidence = Final(checkpoint: Checkpoint) | Released(generation: Generation)

  datatype Settlement = Settlement(evidence: Evidence, cost: nat, tools: nat)

  datatype SlotRelease = SlotRelease(root: SessionId, reason: HeldReason, cost: nat, tools: nat, fromCheckpoint: bool)

  datatype Ledger = Ledger(
    budgets: map<SessionId, Budget>,
    members: map<SessionId, Member>,
    calls: map<SessionId, set<string>>,
    checkpoints: map<SessionId, Checkpoint>,
    settlements: map<SessionId, seq<Settlement>>,
    releases: map<(SessionId, Generation), SlotRelease>)

  // ----- what the ledger reads from other tables -----

  datatype Status = Queued | Starting | Running | InputRequired | Idle | Completed | Failed | Stopped

  datatype StopConfirmation = RunnerAbsent | OtherConfirmation

  datatype Session = Session(status: Status, stopConfirmation: Option<StopConfirmation>, historyEpoch: Option<nat>, hydratedSeq: nat)

  /** `stopping`: sessions with a stop intent. `unpriced`: sessions with unpriced usage records.
      `oldRunners`: sessions whose runner is too old to prove that a provider retired. */
  datatype World = World(sessions: map<SessionId, Session>, reviewers: set<SessionId>, stopping: set<SessionId>,
                         unpriced: set<SessionId>, oldRunners: set<SessionId>)

  predicate Ended(w: World, s: SessionId) {
    s in w.sessions && w.sessions[s].status in {Completed, Failed, Stopped}
  }

  // ----- slots -----

  /** The session ended, no stop is pending and a stop it reported is confirmed. */
  predicate ConfirmedEnd(w: World, s: SessionId) {
    && Ended(w, s) && s !in w.stopping
    && (w.sessions[s].status == Stopped ==> w.sessions[s].stopConfirmation.Some?)
  }

  predicate ProviderGone(l: Ledger, w: World, s: SessionId)
    requires s in l.members && s in w.sessions
  {
    var m := l.members[s];
    || w.sessions[s].stopConfirmation == Some(RunnerAbsent)
    || m.absent == Some(m.generation)
    || (s in l.checkpoints && l.checkpoints[s].generation == m.generation)
  }

  /** Whether a member holds one of its campaign's concurrent slots. */
  predicate Occupying(l: Ledger, w: World, s: SessionId)
    requires s in l.members
  {
    var m := l.members[s];
    && m.active && s !in w.reviewers
    && (s in w.sessions ==> !(ConfirmedEnd(w, s) && m.unprovable != Some(m.generation) && ProviderGone(l, w, s)))
  }

  function OccupiedSlots(l: Ledger, w: World, root: SessionId): set<SessionId> {
    set s | s in l.members && l.members[s].root == root && s != root && Occupying(l, w, s)
  }

  function HeldFor(m: Member): Option<HeldReason> {
    if m.unprovable == Some(m.generation) then Some(OlderRunner)
    else if m.hold.Some? && m.hold.value.generation == m.generation then Some(m.hold.value.reason)
    else None
  }

  /** A worker whose slot only its campaign's owner can release. */
  predicate Releasable(l: Ledger, w: World, s: SessionId)
    requires s in l.members
  {
    s != l.members[s].root && s in w.sessions && Occupying(l, w, s) && ConfirmedEnd(w, s) && HeldFor(l.members[s]).Some?
  }

  // ----- totals -----

  /** A sum over the member rows, in any order. */
  ghost function Sum(ms: map<SessionId, Member>, f: Member -> int): int {
    if ms == map[] then 0
    else
      var s :| s in ms;
      f(ms[s]) + Sum(ms - {s}, f)
  }

  function SpentIn(root: SessionId, d: Dim): Member -> int {
    (m: Member) => if m.root == root then MeterOf(m, d).spent else 0
  }

  function CoveredIn(root: SessionId, d: Dim): Member -> int {
    (m: Member) => if m.root == root then MeterOf(m, d).Covered(m.active) else 0
  }

  function UnspentIn(root: SessionId, d: Dim): Member -> int {
    (m: Member) => if m.root == root then MeterOf(m, d).Covered(m.active) - MeterOf(m, d).spent else 0
  }

  function ExcessIn(root: SessionId, d: Dim): Member -> int {
    (m: Member) => if m.root == root then MeterOf(m, d).excess else 0
  }

  /** What a member counts for without the excess it reported. */
  function HeldIn(root: SessionId, d: Dim): Member -> int {
    (m: Member) => if m.root == root then MeterOf(m, d).Covered(m.active) - MeterOf(m, d).excess else 0
  }

  ghost function Actual(l: Ledger, root: SessionId, d: Dim): int { Sum(l.members, SpentIn(root, d)) }
  ghost function Outstanding(l: Ledger, root: SessionId, d: Dim): int { Sum(l.members, UnspentIn(root, d)) }
  ghost function Excess(l: Ledger, root: SessionId, d: Dim): int { Sum(l.members, ExcessIn(root, d)) }
  ghost function Total(l: Ledger, root: SessionId, d: Dim): int { Sum(l.members, CoveredIn(root, d)) }
  ghost function Held(l: Ledger, root: SessionId, d: Dim): int { Sum(l.members, HeldIn(root, d)) }

  /** The unreserved allowance, 0 where there is no ceiling. */
  ghost function Remaining(l: Ledger, root: SessionId, d: Dim): nat
    requires root in l.budgets
  {
    var ceiling := Ceiling(l.budgets[root].authority, d);
    if ceiling.None? || ceiling.value <= Total(l, root, d) then 0 else ceiling.value - Total(l, root, d)
  }

  // ----- settling -----

  /** Stops an allowance that is active. */
  function Halted(b: Budget, state: State): Budget {
    if b.state.Active? then b.(state := state) else b
  }

  function Stop(l: Ledger, root: SessionId, state: State): Ledger {
    if root in l.budgets then l.(budgets := l.budgets[root := Halted(l.budgets[root], state)]) else l
  }

  function RowsIn(settlements: map<SessionId, seq<Settlement>>, s: SessionId): seq<Settlement> {
    if s in settlements then settlements[s] else []
  }

  function Rows(l: Ledger, s: SessionId): seq<Settlement> {
    RowsIn(l.settlements, s)
  }

  /** INSERT OR IGNORE: a session settles at most once on the same evidence. */
  function Recorded(rows: seq<Settlement>, row: Settlement): seq<Settlement> {
    if exists r :: r in rows && r.evidence == row.evidence then rows else rows + [row]
  }

  /** Ends a member at its final charge; neither coordinate may lower it. */
  function SettledMember(m: Member, cost: nat, tools: nat): Member {
    m.(cost := m.cost.Charge(m.active, cost), tools := m.tools.Charge(m.active, tools), active := false)
  }

  function Settle(l: Ledger, s: SessionId, evidence: Evidence, cost: nat, tools: nat): Ledger
    requires s in l.members
  {
    var m := SettledMember(l.members[s], cost, tools);
    l.(members := l.members[s := m],
       settlements := l.settlements[s := Recorded(Rows(l, s), Settlement(evidence, m.cost.spent, m.tools.spent))],
       checkpoints := l.checkpoints - {s})
  }

  const WIRE_EPOCH_OFFSET := 20
  const WIRE_PROJECTIONS := 7

  /** Whether a checkpoint, in runner coordinates, names the history that was hydrated. */
  predicate EpochMatches(local: nat, hydrated: Option<nat>) {
    hydrated.Some? &&
    if hydrated.value < WIRE_EPOCH_OFFSET then hydrated.value == local
    else hydrated.value == WIRE_EPOCH_OFFSET + local * WIRE_PROJECTIONS
  }

  predicate CostCeiling(l: Ledger, root: SessionId) {
    root in l.budgets && l.budgets[root].authority.costUsd.Some?
  }

  predicate RetirementUnprovable(m: Member) {
    m.active && m.unprovable == Some(m.generation)
  }

  /** A final checkpoint of the current generation that the hydrated history covers. */
  predicate Proven(l: Ledger, w: World, s: SessionId, historyEpoch: Option<nat>, hydratedSeq: nat) {
    && s in l.checkpoints && s !in w.stopping && s in l.members
    && !RetirementUnprovable(l.members[s])
    && (s, l.members[s].generation) !in l.releases
    && l.checkpoints[s].generation == l.members[s].generation
    && Ended(w, s)
    && EpochMatches(l.checkpoints[s].historyEpoch, historyEpoch)
    && l.checkpoints[s].throughSeq <= hydratedSeq
  }

  /** Unpriced final usage cannot settle where a cost ceiling depends on it. */
  predicate Unaccountable(l: Ledger, w: World, s: SessionId)
    requires s in l.members
  {
    CostCeiling(l, l.members[s].root) && s in w.unpriced
  }

  function SettleCheckpoint(l: Ledger, w: World, s: SessionId, historyEpoch: Option<nat>, hydratedSeq: nat): (Ledger, bool) {
    if !Proven(l, w, s, historyEpoch, hydratedSeq) then (l, false)
    else if Unaccountable(l, w, s) then (Stop(l, l.members[s].root, AccountingUnavailable), false)
    else (Settle(l, s, Final(l.checkpoints[s]), l.checkpoints[s].cost, 0), true)
  }

  // ----- reading the allowance -----

  /** Ended members whose final checkpoint is stored and not settled yet. */
  function EndedMembers(l: Ledger, w: World, root: SessionId): set<SessionId> {
    set s | s in l.members && l.members[s].root == root && l.members[s].active && s in l.checkpoints && Ended(w, s) && s !in w.stopping
  }

  predicate ProvenNow(l: Ledger, w: World, s: SessionId) {
    s in w.sessions && Proven(l, w, s, w.sessions[s].historyEpoch, w.sessions[s].hydratedSeq)
  }

  /** Those of `ids` that settle now. */
  function Settleable(l: Ledger, w: World, ids: set<SessionId>): set<SessionId> {
    set s | s in ids && s in l.members && ProvenNow(l, w, s) && !Unaccountable(l, w, s)
  }

  /** Whether the final usage of one of `ids` cannot be accounted for. */
  predicate AnyBlocked(l: Ledger, w: World, ids: set<SessionId>) {
    exists s :: s in ids && s in l.members && ProvenNow(l, w, s) && Unaccountable(l, w, s)
  }

  function SettledMembers(members: map<SessionId, Member>, checkpoints: map<SessionId, Checkpoint>, settled: set<SessionId>): map<SessionId, Member>
    requires settled <= checkpoints.Keys
  {
    map s | s in members :: if s in settled then SettledMember(members[s], checkpoints[s].cost, 0) else members[s]
  }

  function FinalRow(m: Member, c: Checkpoint): Settlement {
    var n := SettledMember(m, c.cost, 0);
    Settlement(Final(c), n.cost.spent, n.tools.spent)
  }

  function SettledTable(members: map<SessionId, Member>, checkpoints: map<SessionId, Checkpoint>,
                        settlements: map<SessionId, seq<Settlement>>, settled: set<SessionId>): map<SessionId, seq<Settlement>>
    requires settled <= members.Keys && settled <= checkpoints.Keys
  {
    map s | s in settlements.Keys + settled ::
      if s in settled then Recorded(RowsIn(settlements, s), FinalRow(members[s], checkpoints[s])) else settlements[s]
  }

  /** Each of `settled` ended at its own checkpoint. */
  function SettleEach(l: Ledger, settled: set<SessionId>): Ledger
    requires settled <= l.members.Keys && settled <= l.checkpoints.Keys
  {
    l.(members := SettledMembers(l.members, l.checkpoints, settled),
       settlements := SettledTable(l.members, l.checkpoints, l.settlements, settled),
       checkpoints := l.checkpoints - settled)
  }

  /** All of `ids` settled, each from its own checkpoint; one that is unaccountable stops the allowance
      instead. */
  function SettleAll(l: Ledger, w: World, root: SessionId, ids: set<SessionId>): Ledger {
    SettleEach(if AnyBlocked(l, w, ids) then Stop(l, root, AccountingUnavailable) else l, Settleable(l, w, ids))
  }

  predicate AnyUnpriced(l: Ledger, w: World, root: SessionId) {
    exists s :: s in l.members && l.members[s].root == root && s in w.unpriced
  }

  function Noted(b: Budget, unpriced: bool): Budget {
    b.(costUnpriced := b.costUnpriced || unpriced)
  }

  function NoteUnpriced(l: Ledger, w: World, root: SessionId): Ledger {
    if root in l.budgets then l.(budgets := l.budgets[root := Noted(l.budgets[root], AnyUnpriced(l, w, root))]) else l
  }

  ghost predicate Reached(l: Ledger, root: SessionId, d: Dim)
    requires root in l.budgets
  {
    var ceiling := Ceiling(l.budgets[root].authority, d);
    ceiling.Some? && Actual(l, root, d) >= ceiling.value
  }

  /** An active allowance stops when its cost ceiling cannot be accounted for. */
  function Priced(b: Budget, unpriced: bool): Budget {
    var noted := Noted(b, unpriced);
    if noted.costUnpriced && noted.authority.costUsd.Some? then Halted(noted, AccountingUnavailable) else noted
  }

  /** An allowance once its usage is read: it stops as well when a ceiling is reached. */
  function StandingOf(b: Budget, unpriced: bool, reached: bool): Budget {
    if reached then Halted(Priced(b, unpriced), Exhausted) else Priced(b, unpriced)
  }

  ghost function Standing(l: Ledger, w: World, root: SessionId): Ledger {
    if root !in l.budgets then l
    else
      var reached := Reached(l, root, Cost) || Reached(l, root, Tools);
      l.(budgets := l.budgets[root := StandingOf(l.budgets[root], AnyUnpriced(l, w, root), reached)])
  }

  /** What reading the allowance leaves behind: ended members settled, and its standing brought up to date. */
  ghost function Read(l: Ledger, w: World, root: SessionId): Ledger {
    Standing(SettleAll(l, w, root, EndedMembers(l, w, root)), w, root)
  }

  ghost predicate Open(l: Ledger, root: SessionId) {
    root in l.budgets && l.budgets[root].state.Active?
  }

  // ----- admission -----

  datatype Refusal =
    | Unavailable | OtherAllowance | ConcurrencyReached | TighterCeiling | ExceedsUnreserved
    | StoppedAllowance | IncompleteHistory | BelowReservations

  datatype Outcome = Ok(ledger: Ledger) | Refused(reason: Refusal)

  datatype Allocation = Allocation(session: SessionId, costUsd: Option<nat>, toolCalls: Option<nat>)

  datatype Limits = Limits(costUsd: Option<nat>, toolCalls: Option<nat>)

  /** What is wrong with one dimension of a requested allocation. `prior` is what the member already
      has reserved beyond its spend. */
  function AllocationError(requested: Option<nat>, spent: nat, ceiling: Option<nat>, userCeiling: Option<nat>,
                           remaining: nat, prior: nat): Option<Refusal>
  {
    if requested.Some? && (requested.value < spent || (userCeiling.Some? && requested.value > userCeiling.value)) then Some(TighterCeiling)
    else if ceiling.Some? && (requested.None? || requested.value <= spent || requested.value - spent > remaining + prior) then Some(ExceedsUnreserved)
    else None
  }

  function OrElse(a: Option<nat>, b: Option<nat>): Option<nat> {
    if a.Some? then a else b
  }

  function NewMember(root: SessionId, user: Limits, generation: Generation): Member {
    Member(root, Meter(0, None, user.costUsd, 0), Meter(0, None, user.toolCalls, 0), false, generation, None, None, None)
  }

  /** The row an allocation is measured against: the member's, or a new one with no spend. */
  function RowFor(l: Ledger, root: SessionId, session: SessionId, user: Limits, generation: Generation): Member {
    if session in l.members then l.members[session] else NewMember(root, user, generation)
  }

  function Allocated(m: Member, a: Allocation, activate: bool): Member {
    m.(cost := m.cost.(limit := OrElse(a.costUsd, m.cost.limit)), tools := m.tools.(limit := OrElse(a.toolCalls, m.tools.limit)),
       active := activate)
  }

  function Prior(meter: Meter, active: bool): nat {
    meter.Covered(active) - meter.spent
  }

  ghost function DimError(l: Ledger, root: SessionId, m: Member, a: Allocation, d: Dim): Option<Refusal>
    requires root in l.budgets
  {
    var meter := MeterOf(m, d);
    AllocationError(OrElse(if d.Cost? then a.costUsd else a.toolCalls, meter.limit), meter.spent,
                    Ceiling(l.budgets[root].authority, d), meter.userLimit, Remaining(l, root, d), Prior(meter, m.active))
  }

  /** The checks of an admission on an allowance that was just read. */
  ghost function AdmissionError(l: Ledger, w: World, root: SessionId, a: Allocation, user: Limits, launch: bool, generation: Generation): Option<Refusal> {
    var s := a.session;
    if !Open(l, root) then Some(Unavailable)
    else if s in l.members && l.members[s].root != root then Some(OtherAllowance)
    else
      var m := RowFor(l, root, s, user, generation);
      var limit := l.budgets[root].authority.concurrency;
      if s !in w.reviewers && launch && !(s in l.members && Occupying(l, w, s)) && s != root && limit.Some?
         && |OccupiedSlots(l, w, root)| >= limit.value then Some(ConcurrencyReached)
      else if DimError(l, root, m, a, Cost).Some? then DimError(l, root, m, a, Cost)
      else DimError(l, root, m, a, Tools)
  }

  /** Reserves an allocation. A refusal leaves nothing behind. A new member gets `generation`. */
  ghost function Admit(l: Ledger, w: World, root: SessionId, a: Allocation, user: Limits, activate: bool, launch: bool,
                       generation: Generation): Outcome
  {
    var read := Read(l, w, root);
    var error := AdmissionError(read, w, root, a, user, launch, generation);
    if error.Some? then Refused(error.value)
    else Ok(NoteUnpriced(Admitted(read, root, a, user, activate, generation), w, root))
  }

  function Admitted(l: Ledger, root: SessionId, a: Allocation, user: Limits, activate: bool, generation: Generation): Ledger {
    l.(members := l.members[a.session := Allocated(RowFor(l, root, a.session, user, generation), a, activate)],
       checkpoints := if activate then l.checkpoints - {a.session} else l.checkpoints)
  }

  function Max(a: nat, b: nat): nat { if a > b then a else b }
  function Min(a: nat, b: nat): nat { if a < b then a else b }

  ghost function FreeSlots(l: Ledger, w: World, root: SessionId): nat
    requires root in l.budgets
  {
    var limit := OrElse(l.budgets[root].authority.concurrency, Some(1)).value;
    var occupied := |OccupiedSlots(l, w, root)|;
    if limit <= occupied then 0 else limit - occupied
  }

  function Share(remaining: nat, free: nat, reviewer: bool): nat {
    remaining / if reviewer then Max(2, free + 1) else Max(1, free)
  }

  /** One dimension of a default reservation. */
  function Offer(ceiling: Option<nat>, requested: Option<nat>, prior: Option<nat>, share: nat, reviewer: bool): Option<nat> {
    if ceiling.None? then requested
    else if requested.Some? then Some(if reviewer then Min(requested.value, share) else requested.value)
    else if prior.Some? then prior
    else Some(share)
  }

  /** The allocation offered to a session on an allowance that was just read. */
  ghost function Prepare(l: Ledger, w: World, root: SessionId, s: SessionId, requested: Limits, reviewer: bool): Allocation
    requires root in l.budgets
  {
    var free, b := FreeSlots(l, w, root), l.budgets[root];
    var prior := if s in l.members then Limits(l.members[s].cost.limit, l.members[s].tools.limit) else Limits(None, None);
    Allocation(s,
      Offer(b.authority.costUsd, requested.costUsd, prior.costUsd, Share(Remaining(l, root, Cost), free, reviewer), reviewer),
      Offer(b.authority.toolCalls, requested.toolCalls, prior.toolCalls, Share(Remaining(l, root, Tools), free, reviewer), reviewer))
  }

  // ----- authorization -----

  /** A session of the root's tree as its own row has it; `counted` are the tool calls its history
      still shows, and `renewed` a generation for a member that runs again. */
  datatype TreeRow = TreeRow(session: SessionId, ended: bool, cost: nat, tools: nat, counted: nat, calls: set<string>,
                             costLimit: Option<nat>, toolLimit: Option<nat>, renewed: Generation)

  function MinLimit(a: Option<nat>, b: Option<nat>): Option<nat> {
    if a.None? then b else if b.None? then a else Some(Min(a.value, b.value))
  }

  /** A personal ceiling, tightened by a session limit set below the allocation meanwhile. */
  function Lowered(limit: Option<nat>, granted: Option<nat>, ceiling: Option<nat>): Option<nat> {
    if limit.Some? && limit.value > 0 && (granted.None? || limit.value < granted.value) then MinLimit(ceiling, limit) else ceiling
  }

  function Resume(meter: Meter, limit: Option<nat>): Meter {
    var ceiling := Lowered(limit, meter.limit, meter.userLimit);
    meter.(userLimit := ceiling, limit := if ceiling.None? then meter.limit else MinLimit(meter.limit, ceiling))
  }

  /** A member whose revoked allowance the person authorized again. */
  function ResumedMember(m: Member, row: TreeRow): Member {
    var again := !m.active && !row.ended;
    m.(cost := Resume(m.cost, row.costLimit), tools := Resume(m.tools, row.toolLimit),
       active := m.active || again, generation := if again then row.renewed else m.generation)
  }

  function EnrolledMember(root: SessionId, row: TreeRow): Member {
    Member(root, Meter(row.cost, row.costLimit, row.costLimit, 0), Meter(row.tools, row.toolLimit, row.toolLimit, 0),
           !row.ended, row.renewed, None, None, None)
  }

  function EnrollRow(l: Ledger, root: SessionId, row: TreeRow, resumed: bool): Ledger {
    var s := row.session;
    var m := if s in l.members then l.members[s] else EnrolledMember(root, row);
    var again := resumed && !m.active && !row.ended;
    l.(members := l.members[s := if resumed then ResumedMember(m, row) else m],
       checkpoints := if again then l.checkpoints - {s} else l.checkpoints,
       calls := l.calls[s := (if s in l.calls then l.calls[s] else {}) + row.calls])
  }

  function Enroll(l: Ledger, root: SessionId, tree: seq<TreeRow>, resumed: bool): Ledger
    decreases |tree|
  {
    if tree == [] then l else EnrollRow(Enroll(l, root, tree[..|tree| - 1], resumed), root, tree[|tree| - 1], resumed)
  }

  function ActiveMembers(l: Ledger, root: SessionId): set<SessionId> {
    set s | s in l.members && l.members[s].root == root && l.members[s].active
  }

  /** Members whose allocation an authorization leaves as it is. */
  predicate Keeps(m: Member, authority: Authority, first: bool) {
    !first && (authority.costUsd.None? || m.cost.limit.Some?) && (authority.toolCalls.None? || m.tools.limit.Some?)
  }

  function DividedLimit(meter: Meter, ceiling: Option<nat>, free: nat, claimants: nat): Option<nat>
    requires 0 < claimants
  {
    if ceiling.None? then meter.limit else MinLimit(meter.limit, Some(meter.spent + free / claimants))
  }

  /** A member's row under a new grant, from its own row as it was when the members were listed. */
  function DividedMember(m: Member, was: Member, authority: Authority, freeCost: nat, freeTools: nat, claimants: nat): Member
    requires 0 < claimants
  {
    WithLimits(m, DividedLimit(was.cost, authority.costUsd, freeCost, claimants), DividedLimit(was.tools, authority.toolCalls, freeTools, claimants))
  }

  function FreeOf(ceiling: Option<nat>, actual: nat): nat {
    if ceiling.None? || ceiling.value <= actual then 0 else ceiling.value - actual
  }

  /** The rows of `live` members without a finite reservation, divided. */
  function DividedRows(ms: map<SessionId, Member>, was: map<SessionId, Member>, live: set<SessionId>, authority: Authority, first: bool,
                       freeCost: nat, freeTools: nat, claimants: nat): map<SessionId, Member>
    requires live <= was.Keys && 0 < claimants
  {
    map s | s in ms ::
      if s in live && !Keeps(was[s], authority, first) then DividedMember(ms[s], was[s], authority, freeCost, freeTools, claimants) else ms[s]
  }

  function Claimants(live: set<SessionId>, authority: Authority): nat {
    Max(1, |live| + OrElse(authority.concurrency, Some(1)).value)
  }

  /** Every live member gets a finite reservation: its own tighter limit, or a share of what was free. */
  ghost function Divided(before: Ledger, used: Ledger, root: SessionId, authority: Authority, first: bool): Ledger {
    var live := ActiveMembers(before, root);
    used.(members := DividedRows(used.members, before.members, live, authority, first,
                                 Unused(used, root, authority, Cost), Unused(used, root, authority, Tools), Claimants(live, authority)))
  }

  function WithLimits(m: Member, cost: Option<nat>, tools: Option<nat>): Member {
    m.(cost := m.cost.(limit := cost), tools := m.tools.(limit := tools))
  }

  /** The part of a new ceiling that is not spent. */
  ghost function Unused(l: Ledger, root: SessionId, authority: Authority, d: Dim): nat {
    if Actual(l, root, d) < 0 then 0 else FreeOf(Ceiling(authority, d), Actual(l, root, d))
  }

  ghost predicate Fits(l: Ledger, w: World, root: SessionId) {
    && Open(l, root)
    && (forall d: Dim :: Ceiling(l.budgets[root].authority, d).Some? ==> Total(l, root, d) <= Ceiling(l.budgets[root].authority, d).value)
    && (l.budgets[root].authority.concurrency.Some? ==> |OccupiedSlots(l, w, root)| <= l.budgets[root].authority.concurrency.value)
  }

  /** A new grant starts the excess of its members over: earlier overruns are spend it was given for. */
  function Forgiven(l: Ledger, root: SessionId): Ledger {
    l.(members := map s | s in l.members ::
      if l.members[s].root == root
      then l.members[s].(cost := l.members[s].cost.(excess := 0), tools := l.members[s].tools.(excess := 0))
      else l.members[s])
  }

  function Granted(l: Ledger, root: SessionId, authority: Authority): Ledger {
    l.(budgets := l.budgets[root := Budget(authority, Active, root in l.budgets && l.budgets[root].costUnpriced)])
  }

  /** Every live member's reservation under a new grant, read before and after the division. */
  ghost function Reserved(enrolled: Ledger, w: World, root: SessionId, authority: Authority, first: bool): Ledger {
    Read(Divided(enrolled, Read(enrolled, w, root), root, authority, first), w, root)
  }

  ghost function AuthorizeError(read: Ledger, root: SessionId, authority: Authority, tree: seq<TreeRow>): Option<Refusal> {
    if root in read.budgets then
      if read.budgets[root].state in {Exhausted, AccountingUnavailable} then Some(StoppedAllowance) else None
    else if authority.toolCalls.Some? && exists row :: row in tree && row.tools > row.counted then Some(IncompleteHistory)
    else None
  }

  predicate Resumes(read: Ledger, root: SessionId) {
    root in read.budgets && read.budgets[root].state.Revoked?
  }

  /** The person's grant, or a new grant to a campaign that already has one. */
  ghost function Authorize(l: Ledger, w: World, root: SessionId, authority: Authority, tree: seq<TreeRow>): Outcome {
    var read := Read(l, w, root);
    var error := AuthorizeError(read, root, authority, tree);
    if error.Some? then Refused(error.value)
    else
      var enrolled := Enroll(Granted(read, root, authority), root, tree, Resumes(read, root));
      var reserved := Reserved(enrolled, w, root, authority, root !in read.budgets);
      if Fits(reserved, w, root) then Ok(Forgiven(reserved, root)) else Refused(BelowReservations)
  }

  // ----- usage -----

  /** The trigger on a session's cost and tool peaks. */
  function SessionUsage(l: Ledger, s: SessionId, cost: nat, tools: nat): Ledger {
    if s !in l.members then l
    else
      var m := l.members[s];
      l.(members := l.members[s := m.(cost := m.cost.Charge(m.active, cost), tools := m.tools.Charge(m.active, tools))])
  }

  /** The trigger on a tool call event: a call is counted once however often it is reported. */
  function ToolCall(l: Ledger, s: SessionId, call: string): Ledger {
    if s !in l.members then l
    else
      var seen := (if s in l.calls then l.calls[s] else {}) + {call};
      var m := l.members[s];
      l.(calls := l.calls[s := seen], members := l.members[s := m.(tools := m.tools.Charge(m.active, |seen|))])
  }

  // ----- receipts -----

  function RecordCheckpoint(l: Ledger, s: SessionId, c: Checkpoint): Ledger {
    if s in l.members && c.generation == l.members[s].generation then l.(checkpoints := l.checkpoints[s := c]) else l
  }

  datatype FinalUsage = PricedUsage(cost: nat, toolCalls: nat) | UnpricedUsage(toolCalls: nat)

  /** A dedicated media reviewer's final usage, from its runner's own report. */
  function SettleMediaReview(l: Ledger, s: SessionId, root: SessionId, generation: Generation, usage: FinalUsage): (Ledger, bool) {
    if s !in l.members || l.members[s].root != root || l.members[s].generation != generation then (l, false)
    else if !l.members[s].active then (l, Attested(l, s).Some?)
    else if usage.UnpricedUsage? then (Stop(l, root, AccountingUnavailable), false)
    else (Settle(l, s, Final(Checkpoint(generation, 0, 0, usage.cost)), usage.cost, usage.toolCalls), true)
  }

  datatype Attestation = Attestation(root: SessionId, checkpoint: Checkpoint, cost: nat, tools: nat)

  /** The settlement a member's completion may be attested by, if its latest one still states its charge. */
  function Attested(l: Ledger, s: SessionId): Option<Attestation> {
    if s !in l.members || l.members[s].active || Rows(l, s) == [] then None
    else
      var m, row := l.members[s], Rows(l, s)[|Rows(l, s)| - 1];
      if m.cost.spent > row.cost || m.tools.spent > row.tools || !row.evidence.Final?
         || row.evidence.checkpoint.generation != m.generation then None
      else Some(Attestation(m.root, row.evidence.checkpoint, row.cost, row.tools))
  }

  datatype ReleaseError = NotInCampaign | Relaunched | AlreadyFree | NotReleasable

  datatype ReleaseResult = ReleaseOk(release: SlotRelease, replayed: bool) | ReleaseRefused(error: ReleaseError)

  /** A person's release of one ended worker's held slot. */
  function ReleaseSlot(l: Ledger, w: World, root: SessionId, s: SessionId, generation: Generation): (Ledger, ReleaseResult) {
    if (s, generation) in l.releases then
      (l, if l.releases[(s, generation)].root == root then ReleaseOk(l.releases[(s, generation)], true) else ReleaseRefused(NotInCampaign))
    else if s !in l.members || l.members[s].root != root || s == root then (l, ReleaseRefused(NotInCampaign))
    else if l.members[s].generation != generation then (l, ReleaseRefused(Relaunched))
    else if !l.members[s].active then (l, ReleaseRefused(AlreadyFree))
    else if !Releasable(l, w, s) then (l, ReleaseRefused(NotReleasable))
    else
      var final := s in l.checkpoints && l.checkpoints[s].generation == generation;
      var evidence := if final then Final(l.checkpoints[s]) else Released(generation);
      var settled := Settle(l, s, evidence, if final then l.checkpoints[s].cost else 0, 0);
      var m := settled.members[s];
      var release := SlotRelease(root, HeldFor(l.members[s]).value, m.cost.spent, m.tools.spent, final);
      (settled.(releases := l.releases[(s, generation) := release]), ReleaseOk(release, false))
  }

  // ----- generations -----

  /** Marks the current generation as one whose retirement nobody can prove. */
  function Marked(m: Member, oldRunner: bool): Member {
    if m.active && oldRunner then m.(unprovable := Some(m.generation)) else m
  }

  function MarkUnprovable(l: Ledger, w: World, s: SessionId): Ledger {
    if s in l.members then l.(members := l.members[s := Marked(l.members[s], s in w.oldRunners)]) else l
  }

  /** A relaunch: `renewed` is a generation never used before. */
  function ReplaceDispatch(l: Ledger, w: World, s: SessionId, renewed: Generation): Ledger {
    l.(members := if s in l.members then l.members[s := Marked(l.members[s].(generation := renewed), s in w.oldRunners)] else l.members,
       checkpoints := l.checkpoints - {s})
  }

  datatype DispatchState = DispatchState(active: bool, generation: Generation, checkpoint: Option<Checkpoint>, unprovable: Option<Generation>)

  function SavedDispatch(l: Ledger, s: SessionId): DispatchState
    requires s in l.members
  {
    var m := l.members[s];
    DispatchState(m.active, m.generation, if s in l.checkpoints then Some(l.checkpoints[s]) else None, m.unprovable)
  }

  function Restored(m: Member, saved: DispatchState): Member {
    m.(active := saved.active, generation := saved.generation, unprovable := saved.unprovable)
  }

  /** Puts back what a dispatch that was never sent replaced. */
  function RestoreDispatch(l: Ledger, s: SessionId, saved: DispatchState): Ledger {
    l.(members := if s in l.members then l.members[s := Restored(l.members[s], saved)] else l.members,
       checkpoints := if saved.checkpoint.Some? then l.checkpoints[s := saved.checkpoint.value] else l.checkpoints - {s})
  }

  /** A restart: the member is admitted again with its own allocation, its dispatch is replaced, and
      what was replaced is put back when the command was not sent. */
  ghost function Relaunch(l: Ledger, w: World, root: SessionId, s: SessionId, renewed: Generation, sent: bool): Outcome {
    if s !in l.members then Refused(Unavailable)
    else
      var m := l.members[s];
      var admitted := Admit(l, w, root, Allocation(s, m.cost.limit, m.tools.limit), Limits(None, None), true, true, renewed);
      if admitted.Refused? then admitted
      else
        var replaced := ReplaceDispatch(admitted.ledger, w, s, renewed);
        Ok(if sent then replaced else RestoreDispatch(replaced, s, SavedDispatch(l, s)))
  }

  function NoteProviderAbsent(l: Ledger, s: SessionId): Ledger {
    if s in l.members && l.members[s].active
    then l.(members := l.members[s := l.members[s].(absent := Some(l.members[s].generation))])
    else l
  }

  function NoteRetirementHold(l: Ledger, s: SessionId, hold: Hold): Ledger {
    if s in l.members && l.members[s].active && l.members[s].generation == hold.generation && !hold.reason.OlderRunner?
    then l.(members := l.members[s := l.members[s].(hold := Some(hold))])
    else l
  }

  /** A child whose creation failed before its launch was sent: it never ran. */
  function ReleaseUnlaunched(l: Ledger, s: SessionId): Ledger {
    l.(members := l.members - {s}, calls := l.calls - {s}, checkpoints := l.checkpoints - {s}, settlements := l.settlements - {s})
  }
}
