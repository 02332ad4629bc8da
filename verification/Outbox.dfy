/** The durable command outbox: the commands of one automation execution, their receipts, provider
    retries, write-offs and transmissions. */
module Outbox {
  import opened Options

  type Time = int

  // ----- commands -----

  datatype State = Staged | Pending | Sent | Accepted | Started | Completed | Rejected | Uncertain

  function Rank(s: State): nat {
    match s
    case Staged => 0
    case Pending => 1
    case Sent => 2
    case Accepted => 3
    case Started => 4
    case Completed => 5
    case Rejected => 6
    case Uncertain => 6
  }

  predicate Terminal(s: State) { s.Completed? || s.Rejected? || s.Uncertain? }
  predicate Refused(s: State) { s.Rejected? || s.Uncertain? }
  predicate Acknowledged(s: State) { s.Accepted? || s.Started? || s.Completed? }

  /** `supersededBy` is the position of the replacement that a provider retry issued. */
  datatype Command = Command(runner: string, state: State, revision: nat, launch: bool, supersededBy: Option<nat>, dependency: Option<nat>,
                             attempts: nat, nextAttemptAt: Option<Time>, expiresAt: Option<Time>, deliveryDeadline: Option<Time>)

  datatype Status = Dispatching | Running | FailedByCommand | SettledOtherwise

  /** An execution, its commands in ordinal order, and the positions transmitted so far, a history that
      no operation reads. */
  datatype Execution = Execution(status: Status, workflow: bool, commands: seq<Command>, transmitted: seq<nat>)

  predicate Live(e: Execution) { e.status.Dispatching? || e.status.Running? }

  predicate Verdict(c: Command) { Refused(c.state) && c.supersededBy.None? }

  predicate HasVerdict(e: Execution) { exists c :: c in e.commands && Verdict(c) }

  predicate AnyAcknowledged(e: Execution) { exists c :: c in e.commands && Acknowledged(c.state) }

  // ----- receipts -----

  const RECEIPT_LEASE := 30_000

  /** Applies a receipt unless the command is terminal or the receipt is stale. */
  function Recorded(c: Command, state: State, revision: nat, now: Time): Command {
    if Terminal(c.state) || revision < c.revision || (revision == c.revision && !Terminal(state))
       || (!Terminal(state) && Rank(state) < Rank(c.state)) then c
    else c.(state := state, revision := revision,
            nextAttemptAt := if state.Accepted? || state.Started? then Some(now + RECEIPT_LEASE) else None)
  }

  /** How a command ends that can no longer be delivered: it may be running if it was ever sent. */
  function WrittenOff(s: State): State {
    if s.Sent? || s.Accepted? || s.Started? then Uncertain else Rejected
  }

  function Off(c: Command, now: Time): Command {
    Recorded(c, WrittenOff(c.state), c.revision + 1, now)
  }

  function EachOff(cs: seq<Command>, now: Time): seq<Command> {
    seq(|cs|, i requires 0 <= i < |cs| => Off(cs[i], now))
  }

  /** The execution settles by an unsuperseded refusal; a workflow's other commands end with it. */
  function Reconciled(e: Execution, now: Time): Execution {
    if !Live(e) then e
    else if HasVerdict(e) then e.(status := FailedByCommand, commands := if e.workflow then EachOff(e.commands, now) else e.commands)
    else if e.status.Dispatching? && exists c :: c in e.commands && (c.state.Started? || c.state.Completed?) then e.(status := Running)
    else e
  }

  const MAX_PROVIDER_RETRIES := 3
  const PROVIDER_RETRY_BASE := 60_000

  function Superseded(cs: seq<Command>): nat {
    if cs == [] then 0 else (if cs[0].supersededBy.Some? then 1 else 0) + Superseded(cs[1..])
  }

  function RetryDelay(attempt: nat): nat {
    if attempt <= 1 then PROVIDER_RETRY_BASE else 2 * RetryDelay(attempt - 1)
  }

  /** Whether a transient refusal of a launch is answered by a replacement. */
  predicate Retries(e: Execution, i: nat, revision: nat) {
    && Live(e) && i < |e.commands| && e.commands[i].launch
    && !Terminal(e.commands[i].state) && e.commands[i].revision <= revision
    && |e.commands| == Superseded(e.commands) + 1
    && Superseded(e.commands) + 1 <= MAX_PROVIDER_RETRIES
  }

  /** The refused launch is superseded by a fresh one, due after a delay, with the delivery window that
      it had itself. */
  function Retried(e: Execution, i: nat, revision: nat, now: Time, window: Option<nat>): Execution
    requires i < |e.commands|
  {
    var c, attempt := e.commands[i], Superseded(e.commands) + 1;
    var replacement := Command(c.runner, Pending, 0, true, None, c.dependency, 0, Some(now + RetryDelay(attempt)), c.expiresAt,
                               if window.None? then None else Some(now + window.value));
    e.(commands := e.commands[i := c.(state := Rejected, revision := revision, nextAttemptAt := None, supersededBy := Some(|e.commands|))] + [replacement])
  }

  /** A runner's receipt. `known` says that it names the command's runner, session and a recorded
      attempt; `transient` that it refuses for a passing provider error. */
  function Receive(e: Execution, i: nat, known: bool, state: State, revision: nat, transient: bool, window: Option<nat>, now: Time): Execution {
    if !known || i >= |e.commands| then e
    else if state.Rejected? && transient && Retries(e, i, revision) then Reconciled(Retried(e, i, revision, now, window), now)
    else
      var c := Recorded(e.commands[i], state, revision, now);
      if c == e.commands[i] then e else Reconciled(e.(commands := e.commands[i := c]), now)
  }

  // ----- writing off -----

  /** Nothing was acknowledged, and every active command's deadline has passed. */
  predicate Undeliverable(e: Execution, now: Time) {
    && !AnyAcknowledged(e)
    && (exists c :: c in e.commands && !Terminal(c.state))
    && (forall c :: c in e.commands && !Terminal(c.state) ==> c.deliveryDeadline.Some? && c.deliveryDeadline.value <= now)
  }

  /** The sweep that runs before anything is transmitted. */
  function Swept(e: Execution, now: Time): Execution {
    if Live(e) && Undeliverable(e, now) then Reconciled(e.(commands := EachOff(e.commands, now)), now) else e
  }

  // ----- transmission -----

  predicate Due(e: Execution, i: nat, now: Time) {
    && Live(e) && i < |e.commands|
    && var c := e.commands[i];
    && !Terminal(c.state) && !c.state.Staged?
    && c.nextAttemptAt.Some? && c.nextAttemptAt.value <= now
    && (c.expiresAt.None? || c.expiresAt.value > now)
    && (c.deliveryDeadline.None? || c.deliveryDeadline.value > now || AnyAcknowledged(e))
    && (c.dependency.None? || (c.dependency.value < |e.commands| && e.commands[c.dependency.value].state.Completed?))
    && !HasVerdict(e)
  }

  /** What a flush finds at a due row: its runner offline or too old, a payload it will not send, or
      nothing against sending it. */
  datatype Finding = Offline | Incapable | Unsendable | Sendable

  const MAX_RETRY := 30_000

  function SendDelay(attempt: nat): nat {
    if attempt <= 1 then 250 else if attempt > 7 then MAX_RETRY else 2 * SendDelay(attempt - 1)
  }

  /** Marks the attempt before the bytes leave; a terminal row keeps its state. */
  function Marked(c: Command, now: Time): Command {
    if Terminal(c.state) || c.state.Staged? then c
    else c.(state := if c.state.Pending? then Sent else c.state, attempts := c.attempts + 1, nextAttemptAt := Some(now + SendDelay(c.attempts + 1)))
  }

  /** One row of the list a flush made when it began. */
  function FlushRow(e: Execution, i: nat, now: Time, finding: Finding): Execution {
    if i >= |e.commands| || finding.Offline? then e
    else if finding.Incapable? then
      var c := Off(e.commands[i], now);
      if c == e.commands[i] then e else Reconciled(e.(commands := e.commands[i := c]), now)
    else if finding.Unsendable? then
      Reconciled(e.(commands := e.commands[i := Recorded(e.commands[i], Rejected, e.commands[i].revision + 1, now)]), now)
    else e.(commands := e.commands[i := Marked(e.commands[i], now)], transmitted := e.transmitted + [i])
  }

  function FlushRows(e: Execution, rows: seq<nat>, now: Time, findings: nat -> Finding): Execution
    decreases |rows|
  {
    if rows == [] then e else FlushRows(FlushRow(e, rows[0], now, findings(rows[0])), rows[1..], now, findings)
  }

  /** The rows that a flush may list: due when it begins, each once, as many as its limit lets through. */
  predicate Listed(e: Execution, rows: seq<nat>, now: Time) {
    && (forall i :: i in rows ==> Due(e, i, now))
    && (forall i, j :: 0 <= i < j < |rows| ==> rows[i] != rows[j])
  }

  // ----- runs -----

  datatype Op =
    | Activate(now: Time)
    | Receipt(i: nat, known: bool, state: State, revision: nat, transient: bool, window: Option<nat>, now: Time)
    | Sweep(now: Time)
    | Flush(rows: seq<nat>, now: Time, findings: nat -> Finding)
    | Expire(i: nat, now: Time)
    | Settle(running: bool)

  function Activated(c: Command, now: Time): Command {
    if c.state.Staged? then c.(state := Pending, nextAttemptAt := Some(now)) else c
  }

  function Apply(e: Execution, op: Op): Execution {
    match op
    case Activate(now) => if e.status.Dispatching? then e.(commands := seq(|e.commands|, i requires 0 <= i < |e.commands| => Activated(e.commands[i], now))) else e
    case Receipt(i, known, state, revision, transient, window, now) => Receive(e, i, known, state, revision, transient, window, now)
    case Sweep(now) => Swept(e, now)
    case Flush(rows, now, findings) => if Listed(e, rows, now) then FlushRows(e, rows, now, findings) else e
    case Expire(i, now) =>
      if i < |e.commands| && e.commands[i].expiresAt.Some? && e.commands[i].expiresAt.value <= now && !Terminal(e.commands[i].state)
      then Reconciled(e.(commands := e.commands[i := Off(e.commands[i], now)]), now) else e
    case Settle(running) =>
      if !Live(e) then e else if running then (if e.status.Dispatching? then e.(status := Running) else e) else e.(status := SettledOtherwise)
  }

  datatype Run = End | Then(op: Op, rest: Run)

  function After(e: Execution, run: Run): Execution
    decreases run
  {
    match run
    case End => e
    case Then(op, rest) => After(Apply(e, op), rest)
  }

  // ----- rows only move forward -----

  /** A command's state never falls back, nothing leaves a terminal state, and no revision is undone. */
  predicate Forward(c: Command, d: Command) {
    && Rank(c.state) <= Rank(d.state) && c.revision <= d.revision
    && (Terminal(c.state) ==> d == c)
    && (c.supersededBy.Some? ==> d == c)
    && (d.supersededBy.Some? ==> d.state.Rejected?)
    && d.launch == c.launch && d.runner == c.runner && d.dependency == c.dependency
  }

  /** Every command is still there, moved forward; a settled execution stays settled. */
  predicate AllForward(e: Execution, f: Execution) {
    && |e.commands| <= |f.commands|
    && (forall i :: 0 <= i < |e.commands| ==> Forward(e.commands[i], f.commands[i]))
    && (!Live(e) ==> f.status == e.status && |f.commands| == |e.commands|)
  }

  /** Only terminal commands were ever superseded. */
  predicate Ended(e: Execution) {
    forall c :: c in e.commands && c.supersededBy.Some? ==> c.state.Rejected?
  }

  lemma ForwardTwice(e: Execution, f: Execution, g: Execution)
    requires AllForward(e, f) && AllForward(f, g)
    ensures AllForward(e, g)
  {
    forall i | 0 <= i < |e.commands| ensures Forward(e.commands[i], g.commands[i]) {
      assert Forward(e.commands[i], f.commands[i]) && Forward(f.commands[i], g.commands[i]);
    }
  }

  lemma ForwardStaysEnded(e: Execution, f: Execution)
    requires Ended(e) && AllForward(e, f)
    requires forall i :: |e.commands| <= i < |f.commands| ==> f.commands[i].supersededBy.None?
    ensures Ended(f)
  {
    forall c | c in f.commands && c.supersededBy.Some? ensures c.state.Rejected? {
      var i :| 0 <= i < |f.commands| && f.commands[i] == c;
      if i < |e.commands| { assert Forward(e.commands[i], f.commands[i]); }
    }
  }

  lemma RecordedIsForward(c: Command, state: State, revision: nat, now: Time)
    requires c.supersededBy.Some? ==> c.state.Rejected?
    ensures Forward(c, Recorded(c, state, revision, now))
  {
  }

  lemma ReconciledIsForward(e: Execution, now: Time)
    requires Ended(e)
    ensures AllForward(e, Reconciled(e, now))
  {
    var f := Reconciled(e, now);
    forall i | 0 <= i < |e.commands| ensures Forward(e.commands[i], f.commands[i]) {
      assert e.commands[i] in e.commands;
      RecordedIsForward(e.commands[i], WrittenOff(e.commands[i].state), e.commands[i].revision + 1, now);
    }
  }

  lemma OneForward(e: Execution, i: nat, c: Command)
    requires i < |e.commands| && Forward(e.commands[i], c) && Ended(e)
    ensures var f := e.(commands := e.commands[i := c]); AllForward(e, f) || !Live(e)
    ensures forall j :: 0 <= j < |e.commands| ==> Forward(e.commands[j], e.commands[i := c][j])
  {
    forall j | 0 <= j < |e.commands| ensures Forward(e.commands[j], e.commands[i := c][j]) {
      assert e.commands[j] in e.commands;
    }
  }

  /** What every operation keeps. */
  predicate Moves(e: Execution, f: Execution) {
    AllForward(e, f) && Ended(f)
  }

  lemma MovesTwice(e: Execution, f: Execution, g: Execution)
    requires Moves(e, f) && Moves(f, g)
    ensures Moves(e, g)
  {
    ForwardTwice(e, f, g);
  }

  lemma OneMoves(e: Execution, i: nat, c: Command, now: Time)
    requires Ended(e) && i < |e.commands| && Forward(e.commands[i], c) && c.supersededBy == e.commands[i].supersededBy
    ensures var f := e.(commands := e.commands[i := c]); Moves(e, f) && Moves(e, Reconciled(f, now))
  {
    var f := e.(commands := e.commands[i := c]);
    OneForward(e, i, c);
    ForwardStaysEnded(e, f);
    ReconciledMoves(f, now);
    MovesTwice(e, f, Reconciled(f, now));
  }

  lemma ReconciledMoves(e: Execution, now: Time)
    requires Ended(e)
    ensures Moves(e, Reconciled(e, now))
  {
    ReconciledIsForward(e, now);
    ForwardStaysEnded(e, Reconciled(e, now));
  }

  lemma RetriedMoves(e: Execution, i: nat, revision: nat, now: Time, window: Option<nat>)
    requires Ended(e) && Retries(e, i, revision)
    ensures Moves(e, Retried(e, i, revision, now, window))
  {
    var f := Retried(e, i, revision, now, window);
    assert e.commands[i] in e.commands;
    forall j | 0 <= j < |e.commands| ensures Forward(e.commands[j], f.commands[j]) {
      assert e.commands[j] in e.commands;
    }
    forall c | c in f.commands && c.supersededBy.Some? ensures c.state.Rejected? {
      var j :| 0 <= j < |f.commands| && f.commands[j] == c;
      if j < |e.commands| && j != i { assert e.commands[j] in e.commands; }
    }
  }

  lemma ReceiveMoves(e: Execution, i: nat, known: bool, state: State, revision: nat, transient: bool, window: Option<nat>, now: Time)
    requires Ended(e)
    ensures Moves(e, Receive(e, i, known, state, revision, transient, window, now))
  {
    Still(e);
    if known && i < |e.commands| {
      if state.Rejected? && transient && Retries(e, i, revision) {
        var f := Retried(e, i, revision, now, window);
        RetriedMoves(e, i, revision, now, window);
        ReconciledMoves(f, now);
        MovesTwice(e, f, Reconciled(f, now));
      } else {
        assert e.commands[i] in e.commands;
        RecordedIsForward(e.commands[i], state, revision, now);
        OneMoves(e, i, Recorded(e.commands[i], state, revision, now), now);
      }
    }
  }

  lemma Still(e: Execution)
    requires Ended(e)
    ensures Moves(e, e)
  {
    forall j | 0 <= j < |e.commands| ensures Forward(e.commands[j], e.commands[j]) {
      assert e.commands[j] in e.commands;
    }
  }

  lemma SweptMoves(e: Execution, now: Time)
    requires Ended(e)
    ensures Moves(e, Swept(e, now))
  {
    Still(e);
    var f := e.(commands := EachOff(e.commands, now));
    forall j | 0 <= j < |e.commands| ensures Forward(e.commands[j], f.commands[j]) {
      assert e.commands[j] in e.commands;
      RecordedIsForward(e.commands[j], WrittenOff(e.commands[j].state), e.commands[j].revision + 1, now);
    }
    ForwardStaysEnded(e, f);
    ReconciledMoves(f, now);
    MovesTwice(e, f, Reconciled(f, now));
  }

  lemma OffMoves(e: Execution, i: nat, now: Time)
    requires Ended(e) && i < |e.commands|
    ensures Moves(e, Reconciled(e.(commands := e.commands[i := Off(e.commands[i], now)]), now))
  {
    assert e.commands[i] in e.commands;
    RecordedIsForward(e.commands[i], WrittenOff(e.commands[i].state), e.commands[i].revision + 1, now);
    OneMoves(e, i, Off(e.commands[i], now), now);
  }

  lemma RejectedMoves(e: Execution, i: nat, now: Time)
    requires Ended(e) && i < |e.commands|
    ensures Moves(e, Reconciled(e.(commands := e.commands[i := Recorded(e.commands[i], Rejected, e.commands[i].revision + 1, now)]), now))
  {
    assert e.commands[i] in e.commands;
    RecordedIsForward(e.commands[i], Rejected, e.commands[i].revision + 1, now);
    OneMoves(e, i, Recorded(e.commands[i], Rejected, e.commands[i].revision + 1, now), now);
  }

  lemma SentMoves(e: Execution, i: nat, now: Time)
    requires Ended(e) && i < |e.commands|
    ensures Moves(e, e.(commands := e.commands[i := Marked(e.commands[i], now)], transmitted := e.transmitted + [i]))
  {
    assert e.commands[i] in e.commands;
    OneMoves(e, i, Marked(e.commands[i], now), now);
  }

  lemma FlushRowMoves(e: Execution, i: nat, now: Time, finding: Finding)
    requires Ended(e)
    ensures Moves(e, FlushRow(e, i, now, finding))
  {
    if i >= |e.commands| {
      Still(e);
    } else {
      match finding
      case Offline => Still(e);
      case Incapable => IncapableMoves(e, i, now);
      case Unsendable => RejectedMoves(e, i, now);
      case Sendable => SentMoves(e, i, now);
    }
  }

  lemma IncapableMoves(e: Execution, i: nat, now: Time)
    requires Ended(e) && i < |e.commands|
    ensures Moves(e, FlushRow(e, i, now, Incapable))
  {
    Still(e);
    OffMoves(e, i, now);
  }

  lemma {:induction false} FlushRowsMove(e: Execution, rows: seq<nat>, now: Time, findings: nat -> Finding)
    requires Ended(e)
    ensures Moves(e, FlushRows(e, rows, now, findings))
    decreases |rows|
  {
    Still(e);
    if rows != [] {
      var f := FlushRow(e, rows[0], now, findings(rows[0]));
      FlushRowMoves(e, rows[0], now, findings(rows[0]));
      FlushRowsMove(f, rows[1..], now, findings);
      MovesTwice(e, f, FlushRows(f, rows[1..], now, findings));
    }
  }

  lemma ActivateMoves(e: Execution, now: Time)
    requires Ended(e)
    ensures Moves(e, Apply(e, Activate(now)))
  {
    Still(e);
    var f := Apply(e, Activate(now));
    forall j | 0 <= j < |e.commands| ensures Forward(e.commands[j], f.commands[j]) {
      assert e.commands[j] in e.commands;
    }
    ForwardStaysEnded(e, f);
  }

  lemma OpsMove(e: Execution, op: Op)
    requires Ended(e)
    ensures Moves(e, Apply(e, op))
  {
    Still(e);
    match op
    case Activate(now) => ActivateMoves(e, now);
    case Receipt(i, known, state, revision, transient, window, now) => ReceiveMoves(e, i, known, state, revision, transient, window, now);
    case Sweep(now) => SweptMoves(e, now);
    case Flush(rows, now, findings) => FlushRowsMove(e, rows, now, findings);
    case Expire(i, now) => if i < |e.commands| { OffMoves(e, i, now); }
    case Settle(_) =>
  }

  /** Over any run, no command's state or revision goes back, what is terminal stays as it is, and a
      settled execution stays settled. */
  lemma {:induction false} CommandsMoveForward(e: Execution, run: Run)
    requires Ended(e)
    ensures Moves(e, After(e, run))
    decreases run
  {
    match run
    case End => Still(e);
    case Then(op, rest) =>
      OpsMove(e, op);
      CommandsMoveForward(Apply(e, op), rest);
      MovesTwice(e, Apply(e, op), After(Apply(e, op), rest));
  }

  // ----- at most three replacements -----

  lemma {:induction false} SupersededSame(cs: seq<Command>, ds: seq<Command>)
    requires |cs| == |ds| && forall i :: 0 <= i < |cs| ==> cs[i].supersededBy == ds[i].supersededBy
    ensures Superseded(cs) == Superseded(ds)
    decreases |cs|
  {
    if cs != [] { SupersededSame(cs[1..], ds[1..]); }
  }

  lemma {:induction false} SupersededOneMore(cs: seq<Command>, ds: seq<Command>, i: nat, last: Command)
    requires i < |cs| && |ds| == |cs| + 1 && ds[|cs|] == last && last.supersededBy.None?
    requires cs[i].supersededBy.None? && ds[i].supersededBy.Some?
    requires forall j :: 0 <= j < |cs| && j != i ==> cs[j].supersededBy == ds[j].supersededBy
    ensures Superseded(ds) == Superseded(cs) + 1
    decreases |cs|
  {
    if i == 0 {
      SupersededAppended(cs[1..], ds[1..], last);
    } else {
      SupersededOneMore(cs[1..], ds[1..], i - 1, last);
    }
  }

  lemma {:induction false} SupersededAppended(cs: seq<Command>, ds: seq<Command>, last: Command)
    requires |ds| == |cs| + 1 && ds[|cs|] == last && last.supersededBy.None?
    requires forall j :: 0 <= j < |cs| ==> cs[j].supersededBy == ds[j].supersededBy
    ensures Superseded(ds) == Superseded(cs)
    decreases |cs|
  {
    if cs == [] {
      assert ds == [last] && ds[1..] == [];
    } else {
      SupersededAppended(cs[1..], ds[1..], last);
    }
  }

  /** What replacements have done to a plan of `planned` commands. */
  predicate Bounded(e: Execution, planned: nat) {
    && Superseded(e.commands) <= MAX_PROVIDER_RETRIES
    && |e.commands| == planned + Superseded(e.commands)
  }

  /** An operation that supersedes nothing. */
  predicate Supersedes(e: Execution, f: Execution) {
    |f.commands| != |e.commands| || exists i :: 0 <= i < |e.commands| && f.commands[i].supersededBy != e.commands[i].supersededBy
  }

  lemma UnsupersededStaysBounded(e: Execution, f: Execution, planned: nat)
    requires Bounded(e, planned) && !Supersedes(e, f)
    ensures Bounded(f, planned)
  {
    SupersededSame(e.commands, f.commands);
  }

  lemma RetriedStaysBounded(e: Execution, i: nat, revision: nat, now: Time, window: Option<nat>, planned: nat)
    requires Ended(e) && Retries(e, i, revision) && Bounded(e, planned)
    ensures Bounded(Retried(e, i, revision, now, window), planned)
  {
    assert e.commands[i] in e.commands;
    var f := Retried(e, i, revision, now, window);
    SupersededOneMore(e.commands, f.commands, i, f.commands[|e.commands|]);
  }

  lemma {:induction false} FlushRowsSupersedeNothing(e: Execution, rows: seq<nat>, now: Time, findings: nat -> Finding)
    ensures !Supersedes(e, FlushRows(e, rows, now, findings))
    decreases |rows|
  {
    if rows != [] {
      FlushRowsSupersedeNothing(FlushRow(e, rows[0], now, findings(rows[0])), rows[1..], now, findings);
    }
  }

  lemma ReconciledSupersedesNothing(e: Execution, now: Time)
    ensures !Supersedes(e, Reconciled(e, now))
  {
  }

  lemma ReceiveStaysBounded(e: Execution, i: nat, known: bool, state: State, revision: nat, transient: bool, window: Option<nat>, now: Time, planned: nat)
    requires Ended(e) && Bounded(e, planned)
    ensures Bounded(Receive(e, i, known, state, revision, transient, window, now), planned)
  {
    if known && i < |e.commands| {
      if state.Rejected? && transient && Retries(e, i, revision) {
        var f := Retried(e, i, revision, now, window);
        RetriedStaysBounded(e, i, revision, now, window, planned);
        ReconciledSupersedesNothing(f, now);
        UnsupersededStaysBounded(f, Reconciled(f, now), planned);
      } else {
        OneStaysBounded(e, i, Recorded(e.commands[i], state, revision, now), now, planned);
      }
    }
  }

  lemma OneStaysBounded(e: Execution, i: nat, c: Command, now: Time, planned: nat)
    requires Bounded(e, planned) && i < |e.commands| && c.supersededBy == e.commands[i].supersededBy
    ensures Bounded(Reconciled(e.(commands := e.commands[i := c]), now), planned)
  {
    var f := e.(commands := e.commands[i := c]);
    UnsupersededStaysBounded(e, f, planned);
    ReconciledSupersedesNothing(f, now);
    UnsupersededStaysBounded(f, Reconciled(f, now), planned);
  }

  lemma SweptStaysBounded(e: Execution, now: Time, planned: nat)
    requires Bounded(e, planned)
    ensures Bounded(Swept(e, now), planned)
  {
    var f := e.(commands := EachOff(e.commands, now));
    UnsupersededStaysBounded(e, f, planned);
    ReconciledSupersedesNothing(f, now);
    UnsupersededStaysBounded(f, Reconciled(f, now), planned);
  }

  lemma OpsStayBounded(e: Execution, op: Op, planned: nat)
    requires Ended(e) && Bounded(e, planned)
    ensures Bounded(Apply(e, op), planned)
  {
    match op
    case Flush(rows, now, findings) =>
      FlushRowsSupersedeNothing(e, rows, now, findings);
      UnsupersededStaysBounded(e, FlushRows(e, rows, now, findings), planned);
    case Receipt(i, known, state, revision, transient, window, now) =>
      ReceiveStaysBounded(e, i, known, state, revision, transient, window, now, planned);
    case Sweep(now) => SweptStaysBounded(e, now, planned);
    case Expire(i, now) => if i < |e.commands| { OneStaysBounded(e, i, Off(e.commands[i], now), now, planned); }
    case Activate(now) => UnsupersededStaysBounded(e, Apply(e, op), planned);
    case Settle(_) => UnsupersededStaysBounded(e, Apply(e, op), planned);
  }

  /** A plan as it is staged. */
  predicate Plan(e: Execution) {
    e.status.Dispatching? && e.transmitted == [] && forall c :: c in e.commands ==> c.state.Staged? && c.supersededBy.None?
  }

  lemma {:induction false} NoneSuperseded(cs: seq<Command>)
    requires forall c :: c in cs ==> c.supersededBy.None?
    ensures Superseded(cs) == 0
    decreases |cs|
  {
    if cs != [] {
      assert cs[0] in cs;
      NoneSuperseded(cs[1..]);
    }
  }

  lemma {:induction false} RunsStayBounded(e: Execution, run: Run, planned: nat)
    requires Ended(e) && Bounded(e, planned)
    ensures Bounded(After(e, run), planned)
    decreases run
  {
    match run
    case End =>
    case Then(op, rest) =>
      OpsMove(e, op);
      OpsStayBounded(e, op, planned);
      RunsStayBounded(Apply(e, op), rest, planned);
  }

  /** Over any run of receipts, flushes, sweeps and expiries, a staged plan gains at most three
      replacements, and one for each command that was superseded. */
  lemma AtMostThreeReplacements(e: Execution, run: Run)
    requires Plan(e)
    ensures var f := After(e, run);
      Superseded(f.commands) <= 3 && |f.commands| == |e.commands| + Superseded(f.commands)
  {
    NoneSuperseded(e.commands);
    RunsStayBounded(e, run, |e.commands|);
  }

  // ----- who decides a failure -----

  /** An execution that failed by its commands failed by an unsuperseded refusal. */
  predicate Decided(e: Execution) {
    e.status.FailedByCommand? ==> HasVerdict(e)
  }

  lemma VerdictStays(e: Execution, f: Execution)
    requires Ended(e) && HasVerdict(e) && AllForward(e, f)
    ensures HasVerdict(f)
  {
    var c :| c in e.commands && Verdict(c);
    var i :| 0 <= i < |e.commands| && e.commands[i] == c;
    assert Forward(e.commands[i], f.commands[i]);
    assert f.commands[i] == c && f.commands[i] in f.commands;
  }

  lemma ReconciledIsDecided(e: Execution, now: Time)
    requires Ended(e) && Decided(e)
    ensures Decided(Reconciled(e, now))
  {
    ReconciledIsForward(e, now);
    if HasVerdict(e) { VerdictStays(e, Reconciled(e, now)); }
  }

  lemma {:induction false} FlushRowsAreDecided(e: Execution, rows: seq<nat>, now: Time, findings: nat -> Finding)
    requires Ended(e) && Decided(e)
    ensures Decided(FlushRows(e, rows, now, findings))
    decreases |rows|
  {
    if rows != [] {
      var f := FlushRow(e, rows[0], now, findings(rows[0]));
      FlushRowMoves(e, rows[0], now, findings(rows[0]));
      MoveIsDecided(e, f);
      FlushRowsAreDecided(f, rows[1..], now, findings);
    }
  }

  /** A move that fails the execution does so with a verdict. */
  lemma MoveIsDecided(e: Execution, f: Execution)
    requires Ended(e) && Decided(e) && Moves(e, f)
    requires f.status == e.status || f.status.Running? || f.status.SettledOtherwise? || HasVerdict(f)
    ensures Decided(f)
  {
    if e.status.FailedByCommand? { VerdictStays(e, f); }
  }

  lemma ReceiveIsDecided(e: Execution, i: nat, known: bool, state: State, revision: nat, transient: bool, window: Option<nat>, now: Time)
    requires Ended(e) && Decided(e)
    ensures Decided(Receive(e, i, known, state, revision, transient, window, now))
  {
    if known && i < |e.commands| {
      if state.Rejected? && transient && Retries(e, i, revision) {
        var f := Retried(e, i, revision, now, window);
        RetriedMoves(e, i, revision, now, window);
        ReconciledIsDecided(f, now);
      } else {
        OneIsDecided(e, i, Recorded(e.commands[i], state, revision, now), now);
      }
    }
  }

  lemma OneIsDecided(e: Execution, i: nat, c: Command, now: Time)
    requires Ended(e) && Decided(e) && i < |e.commands| && (Terminal(e.commands[i].state) ==> c == e.commands[i])
    requires c.supersededBy == e.commands[i].supersededBy && (c.supersededBy.Some? ==> c == e.commands[i])
    ensures Decided(Reconciled(e.(commands := e.commands[i := c]), now))
  {
    var f := e.(commands := e.commands[i := c]);
    forall d | d in f.commands && d.supersededBy.Some? ensures d.state.Rejected? {
      var j :| 0 <= j < |f.commands| && f.commands[j] == d;
      assert e.commands[j] in e.commands;
    }
    if e.status.FailedByCommand? {
      var d :| d in e.commands && Verdict(d);
      var j :| 0 <= j < |e.commands| && e.commands[j] == d;
      assert f.commands[j] == d && d in f.commands;
    }
    ReconciledIsDecided(f, now);
  }

  lemma SweptIsDecided(e: Execution, now: Time)
    requires Ended(e) && Decided(e)
    ensures Decided(Swept(e, now))
  {
    if Live(e) {
      var f := e.(commands := EachOff(e.commands, now));
      forall c | c in f.commands && c.supersededBy.Some? ensures c.state.Rejected? {
        var j :| 0 <= j < |f.commands| && f.commands[j] == c;
        assert e.commands[j] in e.commands;
      }
      ReconciledIsDecided(f, now);
    }
  }

  lemma OpsAreDecided(e: Execution, op: Op)
    requires Ended(e) && Decided(e)
    ensures Decided(Apply(e, op))
  {
    match op
    case Activate(now) => ActivateMoves(e, now); MoveIsDecided(e, Apply(e, op));
    case Receipt(i, known, state, revision, transient, window, now) => ReceiveIsDecided(e, i, known, state, revision, transient, window, now);
    case Sweep(now) => SweptIsDecided(e, now);
    case Flush(rows, now, findings) => FlushRowsAreDecided(e, rows, now, findings);
    case Expire(i, now) =>
      if i < |e.commands| {
        assert e.commands[i] in e.commands;
        OneIsDecided(e, i, Off(e.commands[i], now), now);
      }
    case Settle(_) =>
  }

  /** Over any run, an execution that failed by its commands was decided by one that nothing
      superseded: a launch that was retried never decides it. */
  lemma {:induction false} FailureIsDecidedByLiveCommand(e: Execution, run: Run)
    requires Ended(e) && Decided(e)
    ensures Decided(After(e, run))
    decreases run
  {
    match run
    case End =>
    case Then(op, rest) =>
      OpsMove(e, op);
      OpsAreDecided(e, op);
      FailureIsDecidedByLiveCommand(Apply(e, op), rest);
  }

  // ----- written off, or transmitted -----

  lemma OffIsTerminal(c: Command, now: Time)
    ensures Terminal(Off(c, now).state) && (!Terminal(c.state) ==> Refused(Off(c, now).state))
  {
  }

  /** A sweep that writes an execution off settles it, with every one of its commands ended. */
  lemma WrittenOffIsSettled(e: Execution, now: Time)
    requires Ended(e) && Live(e) && Undeliverable(e, now)
    ensures var f := Swept(e, now);
      f.status.FailedByCommand? && |f.commands| == |e.commands| && forall c :: c in f.commands ==> Terminal(c.state)
  {
    var f := e.(commands := EachOff(e.commands, now));
    forall c | c in f.commands ensures Terminal(c.state) {
      var j :| 0 <= j < |f.commands| && f.commands[j] == c;
      OffIsTerminal(e.commands[j], now);
    }
    var c :| c in e.commands && !Terminal(c.state);
    var i :| 0 <= i < |e.commands| && e.commands[i] == c;
    OffIsTerminal(c, now);
    assert Verdict(f.commands[i]) && f.commands[i] in f.commands;
    forall d | d in Reconciled(f, now).commands ensures Terminal(d.state) {
      var j :| 0 <= j < |f.commands| && Reconciled(f, now).commands[j] == d;
      OffIsTerminal(f.commands[j], now);
      assert f.commands[j] in f.commands;
    }
  }

  /** Nothing of a settled execution is transmitted, whatever runs later. */
  lemma {:induction false} SettledNeverTransmits(e: Execution, run: Run)
    requires Ended(e) && !Live(e)
    ensures After(e, run).transmitted == e.transmitted
    decreases run
  {
    match run
    case End =>
    case Then(op, rest) =>
      OpsMove(e, op);
      SettledStep(e, op);
      SettledNeverTransmits(Apply(e, op), rest);
  }

  lemma SettledStep(e: Execution, op: Op)
    requires !Live(e)
    ensures Apply(e, op).transmitted == e.transmitted
  {
    assert op.Flush? && op.rows != [] ==> op.rows[0] in op.rows;
    assert op.Flush? && op.rows != [] && Listed(e, op.rows, op.now) ==> Due(e, op.rows[0], op.now);
  }

  /** Written off and transmitted exclude each other: once a sweep has written an execution off, no
      later run sends any of its commands, and the flush of the same tick sends only commands of
      executions that the sweep left alone. */
  lemma WrittenOffIsNeverTransmitted(e: Execution, now: Time, run: Run)
    requires Ended(e) && Live(e) && Undeliverable(e, now)
    ensures After(Swept(e, now), run).transmitted == e.transmitted
  {
    WrittenOffIsSettled(e, now);
    SweptMoves(e, now);
    SettledNeverTransmits(Swept(e, now), run);
  }

  lemma FlushSparesSwept(e: Execution, i: nat, now: Time)
    requires Due(Swept(e, now), i, now) && Ended(e)
    ensures Swept(e, now) == e && !Undeliverable(e, now)
  {
    if Live(e) && Undeliverable(e, now) { WrittenOffIsSettled(e, now); }
  }

  /** Work that its runner acknowledged is never written off by the sweep. */
  lemma AcknowledgedIsNeverSwept(e: Execution, now: Time)
    requires AnyAcknowledged(e)
    ensures Swept(e, now) == e
  {
  }

  // ----- what one flush transmits -----

  function SendableOf(rows: seq<nat>, findings: nat -> Finding): seq<nat> {
    if rows == [] then [] else (if findings(rows[0]).Sendable? then [rows[0]] else []) + SendableOf(rows[1..], findings)
  }

  lemma RowSends(e: Execution, i: nat, now: Time, finding: Finding)
    requires i < |e.commands|
    ensures var f := FlushRow(e, i, now, finding);
      f.transmitted == e.transmitted + (if finding.Sendable? then [i] else []) && |f.commands| == |e.commands|
  {
  }

  /** What a flush sends is decided when it lists its rows: the sendable ones, in order, each once. */
  lemma {:induction false} FlushSendsExactly(e: Execution, rows: seq<nat>, now: Time, findings: nat -> Finding)
    requires forall k :: 0 <= k < |rows| ==> rows[k] < |e.commands|
    ensures FlushRows(e, rows, now, findings).transmitted == e.transmitted + SendableOf(rows, findings)
    decreases |rows|
  {
    if rows != [] {
      var f := FlushRow(e, rows[0], now, findings(rows[0]));
      RowSends(e, rows[0], now, findings(rows[0]));
      FlushSendsExactly(f, rows[1..], now, findings);
      Joined(e.transmitted, if findings(rows[0]).Sendable? then [rows[0]] else [], SendableOf(rows[1..], findings));
    }
  }

  lemma Joined(sent: seq<nat>, one: seq<nat>, others: seq<nat>)
    ensures (sent + one) + others == sent + (one + others)
  {
  }

  /** Some row of the list is sent while the execution is no longer live. */
  predicate SendsEnded(e: Execution, rows: seq<nat>, now: Time, findings: nat -> Finding)
    decreases |rows|
  {
    rows != [] &&
    var f := FlushRow(e, rows[0], now, findings(rows[0]));
    (!Live(e) && f.transmitted != e.transmitted) || SendsEnded(f, rows[1..], now, findings)
  }

  /** A finding that makes the flush end the row's command. */
  predicate Ends(finding: Finding) { finding.Unsendable? || finding.Incapable? }

  predicate AnySendable(rows: seq<nat>, findings: nat -> Finding) {
    exists b :: 0 <= b < |rows| && findings(rows[b]).Sendable?
  }

  /** A sendable row stands behind one that ends its command. */
  predicate SendableBehindEnd(rows: seq<nat>, findings: nat -> Finding) {
    exists a, b :: 0 <= a < b < |rows| && Ends(findings(rows[a])) && findings(rows[b]).Sendable?
  }

  lemma FirstOrBehind(rows: seq<nat>, findings: nat -> Finding)
    requires rows != []
    ensures AnySendable(rows, findings) <==> findings(rows[0]).Sendable? || AnySendable(rows[1..], findings)
    ensures SendableBehindEnd(rows, findings) <==>
      (Ends(findings(rows[0])) && AnySendable(rows[1..], findings)) || SendableBehindEnd(rows[1..], findings)
  {
    var rest := rows[1..];
    forall b | 0 < b < |rows| ensures rows[b] == rest[b - 1] {
    }
    if AnySendable(rest, findings) {
      var b :| 0 <= b < |rest| && findings(rest[b]).Sendable?;
      assert findings(rows[b + 1]).Sendable?;
      assert Ends(findings(rows[0])) ==> Ends(findings(rows[0])) && findings(rows[b + 1]).Sendable?;
    }
    if SendableBehindEnd(rest, findings) {
      var a, b :| 0 <= a < b < |rest| && Ends(findings(rest[a])) && findings(rest[b]).Sendable?;
      assert Ends(findings(rows[a + 1])) && findings(rows[b + 1]).Sendable?;
    }
  }

  /** A live execution with nothing against sending any of these rows. */
  predicate Ready(e: Execution, rows: seq<nat>) {
    && Live(e) && Ended(e) && !HasVerdict(e)
    && (forall a :: 0 <= a < |rows| ==> rows[a] < |e.commands| && !Terminal(e.commands[rows[a]].state))
    && (forall a, b :: 0 <= a < b < |rows| ==> rows[a] != rows[b])
  }

  lemma PassingStaysReady(e: Execution, rows: seq<nat>, now: Time, finding: Finding)
    requires rows != [] && Ready(e, rows) && !Ends(finding)
    ensures Ready(FlushRow(e, rows[0], now, finding), rows[1..])
  {
    var f := FlushRow(e, rows[0], now, finding);
    FlushRowMoves(e, rows[0], now, finding);
    forall c | c in f.commands ensures !Verdict(c) {
      var j :| 0 <= j < |f.commands| && f.commands[j] == c;
      assert e.commands[j] in e.commands;
    }
    forall a | 0 <= a < |rows[1..]| ensures rows[1..][a] < |f.commands| && !Terminal(f.commands[rows[1..][a]].state) {
      assert rows[1..][a] == rows[a + 1];
    }
  }

  lemma EndingSettles(e: Execution, rows: seq<nat>, now: Time, finding: Finding)
    requires rows != [] && Ready(e, rows) && Ends(finding)
    ensures var f := FlushRow(e, rows[0], now, finding); !Live(f) && |f.commands| == |e.commands| && Ended(f)
  {
    var i := rows[0];
    FlushRowMoves(e, i, now, finding);
    assert e.commands[i] in e.commands;
    OffIsTerminal(e.commands[i], now);
    var c := if finding.Incapable? then Off(e.commands[i], now) else Recorded(e.commands[i], Rejected, e.commands[i].revision + 1, now);
    var g := e.(commands := e.commands[i := c]);
    assert Verdict(c) && g.commands[i] == c && c in g.commands;
  }

  lemma {:induction false} SettledSends(e: Execution, rows: seq<nat>, now: Time, findings: nat -> Finding)
    requires !Live(e) && Ended(e) && forall a :: 0 <= a < |rows| ==> rows[a] < |e.commands|
    ensures SendsEnded(e, rows, now, findings) <==> AnySendable(rows, findings)
    decreases |rows|
  {
    if rows != [] {
      var f := FlushRow(e, rows[0], now, findings(rows[0]));
      FirstOrBehind(rows, findings);
      RowSends(e, rows[0], now, findings(rows[0]));
      FlushRowMoves(e, rows[0], now, findings(rows[0]));
      SettledSends(f, rows[1..], now, findings);
    }
  }

  lemma {:induction false} ReadySends(e: Execution, rows: seq<nat>, now: Time, findings: nat -> Finding)
    requires Ready(e, rows)
    ensures SendsEnded(e, rows, now, findings) <==> SendableBehindEnd(rows, findings)
    decreases |rows|
  {
    if rows != [] {
      var finding := findings(rows[0]);
      var f := FlushRow(e, rows[0], now, finding);
      FirstOrBehind(rows, findings);
      if Ends(finding) {
        EndingSettles(e, rows, now, finding);
        SettledSends(f, rows[1..], now, findings);
        if SendableBehindEnd(rows[1..], findings) { BehindNeedsSendable(rows[1..], findings); }
      } else {
        PassingStaysReady(e, rows, now, finding);
        ReadySends(f, rows[1..], now, findings);
      }
    }
  }

  lemma BehindNeedsSendable(rows: seq<nat>, findings: nat -> Finding)
    requires SendableBehindEnd(rows, findings)
    ensures AnySendable(rows, findings)
  {
  }

  /** Exactly when a flush sends a row of an execution that is no longer live: its list has a sendable
      row of that execution behind one that it ends. */
  lemma FlushSendsEndedExactly(e: Execution, rows: seq<nat>, now: Time, findings: nat -> Finding)
    requires Ended(e) && Listed(e, rows, now)
    ensures SendsEnded(e, rows, now, findings) <==> SendableBehindEnd(rows, findings)
  {
    if rows != [] {
      forall a | 0 <= a < |rows| ensures Due(e, rows[a], now) { assert rows[a] in rows; }
      assert Due(e, rows[0], now);
      ReadySends(e, rows, now, findings);
    }
  }

  /** A flush sends what was due and sendable when it began, even where an earlier row of the same
      execution ended it meanwhile. */
  lemma FlushSendsAfterFailure(e: Execution, now: Time, i: nat, j: nat)
    requires Ended(e) && Due(e, i, now) && Due(e, j, now) && i != j
    ensures var f := Apply(e, Flush([i, j], now, (k: nat) => if k == i then Unsendable else Sendable));
      f.status.FailedByCommand? && f.transmitted == e.transmitted + [j]
      && j < |f.commands| && (e.workflow ==> Terminal(f.commands[j].state))
  {
    var findings := (k: nat) => if k == i then Unsendable else Sendable;
    assert e.commands[i] in e.commands && e.commands[j] in e.commands;
    var c := Recorded(e.commands[i], Rejected, e.commands[i].revision + 1, now);
    var g := e.(commands := e.commands[i := c]);
    assert Verdict(c) && g.commands[i] == c && c in g.commands;
    var f := FlushRow(e, i, now, Unsendable);
    assert f.status.FailedByCommand?;
    FlushRowMoves(e, i, now, Unsendable);
    assert [i, j][1..] == [j] && [j][1..] == [];
    assert FlushRows(e, [i, j], now, findings) == FlushRows(f, [j], now, findings) == FlushRow(f, j, now, Sendable);
    assert Listed(e, [i, j], now);
    OffIsTerminal(g.commands[j], now);
  }
}
