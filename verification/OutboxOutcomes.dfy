/** What single steps of the outbox come to, on the fields of its commands: what a flush may send and
    when it is tried again, what a receipt records, when a launch is retried, and how an execution ends. */
module OutboxOutcomes {
  import opened Outbox
  import opened Options

  // ----- sending -----

  /** The command may be sent: its execution is live and nothing of it was refused for good, it was
      activated and has not ended, its next attempt has come, it has not expired, it is within its
      delivery deadline or its runner acknowledged something, and what it depends on is completed. */
  predicate MaySend(e: Execution, i: nat, now: Time) {
    && i < |e.commands| && (e.status == Dispatching || e.status == Running)
    && (forall c :: c in e.commands && (c.state == Rejected || c.state == Uncertain) ==> c.supersededBy.Some?)
    && var c := e.commands[i];
    && c.state in {Pending, Sent, Accepted, Started}
    && c.nextAttemptAt.Some? && c.nextAttemptAt.value <= now
    && (c.expiresAt.Some? ==> now < c.expiresAt.value)
    && (c.deliveryDeadline.Some? && c.deliveryDeadline.value <= now ==>
          exists d :: d in e.commands && (d.state == Accepted || d.state == Started || d.state == Completed))
    && (c.dependency.Some? ==> c.dependency.value < |e.commands| && e.commands[c.dependency.value].state == Completed)
  }

  lemma DueIs(e: Execution, i: nat, now: Time)
    ensures Due(e, i, now) <==> MaySend(e, i, now)
  {
  }

  /** A flush sends nothing but commands that may be sent when it begins, each at most once. */
  lemma FlushSendsOnly(e: Execution, rows: seq<nat>, now: Time, findings: nat -> Finding)
    ensures var k := Apply(e, Flush(rows, now, findings));
      && e.transmitted <= k.transmitted
      && (forall i :: i in k.transmitted[|e.transmitted|..] ==> MaySend(e, i, now))
  {
    if Listed(e, rows, now) {
      forall a | 0 <= a < |rows| ensures rows[a] < |e.commands| {
        assert Due(e, rows[a], now);
      }
      FlushSendsExactly(e, rows, now, findings);
      SendableIsListed(rows, findings);
      forall i | i in SendableOf(rows, findings) ensures MaySend(e, i, now) {
        DueIs(e, i, now);
      }
    }
  }

  lemma {:induction false} SendableIsListed(rows: seq<nat>, findings: nat -> Finding)
    ensures forall i :: i in SendableOf(rows, findings) ==> i in rows
    decreases |rows|
  {
    if rows != [] {
      SendableIsListed(rows[1..], findings);
    }
  }

  const SENDABLE: nat -> Finding := i => Sendable

  /** A command that may be sent is sent by a flush that lists it: its attempt is counted, it waits for
      its receipt, and its next attempt is due after a delay that doubles up to thirty seconds. */
  lemma MaySendIsSent(e: Execution, i: nat, now: Time)
    requires i < |e.commands|
    ensures var k, c := Apply(e, Flush([i], now, SENDABLE)), e.commands[i];
      if MaySend(e, i, now) then
        && k.transmitted == e.transmitted + [i] && k.status == e.status && |k.commands| == |e.commands|
        && (forall j :: 0 <= j < |e.commands| && j != i ==> k.commands[j] == e.commands[j])
        && k.commands[i] == c.(state := if c.state == Pending then Sent else c.state, attempts := c.attempts + 1,
                               nextAttemptAt := Some(now + Backoff(c.attempts + 1)))
      else k == e
  {
    DueIs(e, i, now);
    SendDelayIs(e.commands[i].attempts + 1);
    assert Listed(e, [i], now) <==> Due(e, i, now) by { assert i in [i]; }
    assert FlushRows(e, [i], now, SENDABLE) == FlushRows(FlushRow(e, i, now, Sendable), [], now, SENDABLE);
  }

  function Pow2(n: nat): nat { if n == 0 then 1 else 2 * Pow2(n - 1) }

  /** 250 milliseconds doubled at each further attempt, but at most thirty seconds. */
  function Backoff(attempt: nat): nat
    requires 1 <= attempt
  {
    var doubled := 250 * Pow2(if attempt - 1 < 7 then attempt - 1 else 7);
    if doubled < 30_000 then doubled else 30_000
  }

  lemma {:induction false} SendDelayIs(attempt: nat)
    requires 1 <= attempt
    ensures SendDelay(attempt) == Backoff(attempt)
  {
    assert Pow2(0) == 1 && Pow2(1) == 2 && Pow2(2) == 4 && Pow2(3) == 8 && Pow2(4) == 16 && Pow2(5) == 32 && Pow2(6) == 64 && Pow2(7) == 128;
    if 1 < attempt <= 7 { SendDelayIs(attempt - 1); }
  }

  // ----- dependencies -----

  /** Whatever was sent has no dependency, or one that is completed. */
  predicate DependenciesMet(e: Execution) {
    forall i :: i in e.transmitted ==>
      && i < |e.commands|
      && (e.commands[i].dependency.Some? ==>
            e.commands[i].dependency.value < |e.commands| && e.commands[e.commands[i].dependency.value].state == Completed)
  }

  lemma StaysMet(e: Execution, f: Execution)
    requires DependenciesMet(e) && Moves(e, f) && e.transmitted <= f.transmitted
    requires forall i :: i in f.transmitted[|e.transmitted|..] ==>
      i < |e.commands| && (e.commands[i].dependency.Some? ==>
        e.commands[i].dependency.value < |e.commands| && e.commands[e.commands[i].dependency.value].state == Completed)
    ensures DependenciesMet(f)
  {
    assert f.transmitted == e.transmitted + f.transmitted[|e.transmitted|..];
    forall i | i in f.transmitted
      ensures i < |f.commands| && (f.commands[i].dependency.Some? ==>
        f.commands[i].dependency.value < |f.commands| && f.commands[f.commands[i].dependency.value].state == Completed)
    {
      assert Forward(e.commands[i], f.commands[i]);
      if e.commands[i].dependency.Some? {
        assert Forward(e.commands[e.commands[i].dependency.value], f.commands[e.commands[i].dependency.value]);
      }
    }
  }

  /** Only a flush sends. */
  lemma OthersSendNothing(e: Execution, op: Op)
    requires !op.Flush?
    ensures Apply(e, op).transmitted == e.transmitted
  {
  }

  /** Over every run, a command is sent only once what it depends on is completed. */
  lemma {:induction false} SentAfterDependency(e: Execution, run: Run)
    requires Ended(e) && DependenciesMet(e)
    ensures DependenciesMet(After(e, run))
    decreases run
  {
    match run
    case End =>
    case Then(op, rest) =>
      OpsMove(e, op);
      if op.Flush? {
        FlushSendsOnly(e, op.rows, op.now, op.findings);
      } else {
        OthersSendNothing(e, op);
        assert Apply(e, op).transmitted[|e.transmitted|..] == [];
      }
      StaysMet(e, Apply(e, op));
      SentAfterDependency(Apply(e, op), rest);
  }

  /** The same from a staged plan on. */
  lemma PlanSendsAfterDependency(e: Execution, run: Run)
    requires Plan(e) && e.transmitted == []
    ensures DependenciesMet(After(e, run))
  {
    SentAfterDependency(e, run);
  }

  // ----- receipts -----

  /** A receipt moves its command: the command has not ended, and the receipt is newer, or ends it at the
      revision it has; and it does not lead back. */
  predicate Advances(c: Command, state: State, revision: nat) {
    var ends := state == Completed || state == Rejected || state == Uncertain;
    && c.state != Completed && c.state != Rejected && c.state != Uncertain
    && (c.revision < revision || (revision == c.revision && ends))
    && (ends || Rank(c.state) <= Rank(state))
  }

  /** A launch refused for a passing provider error is tried again: the execution is live, the launch has
      not ended and is the last of its chain, and fewer than three replacements were issued. */
  predicate RetriesLaunch(e: Execution, i: nat, revision: nat) {
    && i < |e.commands| && (e.status == Dispatching || e.status == Running)
    && var c := e.commands[i];
    && c.launch && c.state != Completed && c.state != Rejected && c.state != Uncertain && c.revision <= revision
    && |e.commands| == Superseded(e.commands) + 1 <= 3
  }

  lemma RecordedIs(c: Command, state: State, revision: nat, now: Time)
    ensures Recorded(c, state, revision, now) ==
      if Advances(c, state, revision)
      then c.(state := state, revision := revision,
              nextAttemptAt := if state == Accepted || state == Started then Some(now + 30_000) else None)
      else c
  {
  }

  /** The execution after its commands have changed: it fails once one of them was refused for good, runs
      once one of them started, and is as it was otherwise. */
  predicate StatusFollows(e: Execution, k: Execution) {
    k.status ==
      if e.status != Dispatching && e.status != Running then e.status
      else if exists c :: c in e.commands && (c.state == Rejected || c.state == Uncertain) && c.supersededBy.None? then FailedByCommand
      else if exists c :: c in e.commands && (c.state == Started || c.state == Completed) then Running
      else e.status
  }

  /** How a command ends with its workflow: uncertain if it may be running, rejected otherwise. */
  predicate EndedWith(c: Command, d: Command) {
    if c.state == Completed || c.state == Rejected || c.state == Uncertain then d == c
    else d == c.(state := if c.state == Sent || c.state == Accepted || c.state == Started then Uncertain else Rejected,
                 revision := c.revision + 1, nextAttemptAt := None)
  }

  /** What follows for the execution: its status, and the end of a failed workflow's other commands. */
  predicate Follows(e: Execution, k: Execution) {
    && StatusFollows(e, k) && |k.commands| == |e.commands| && k.transmitted == e.transmitted && k.workflow == e.workflow
    && (forall j :: 0 <= j < |e.commands| ==>
          if e.workflow && (e.status == Dispatching || e.status == Running) && k.status == FailedByCommand
          then EndedWith(e.commands[j], k.commands[j]) else k.commands[j] == e.commands[j])
  }

  lemma ReconciledIs(e: Execution, now: Time)
    ensures Follows(e, Reconciled(e, now))
  {
  }

  /** A receipt that names its command's runner, session and attempt: the command takes its state exactly
      when it advances, and then the execution follows; it changes nothing otherwise. */
  lemma ReceiptRecords(e: Execution, i: nat, state: State, revision: nat, transient: bool, window: Option<nat>, now: Time)
    requires i < |e.commands| && !(state == Rejected && transient && RetriesLaunch(e, i, revision))
    ensures var k := Receive(e, i, true, state, revision, transient, window, now);
      if !Advances(e.commands[i], state, revision) then k == e
      else
        var c := e.commands[i].(state := state, revision := revision,
                                nextAttemptAt := if state == Accepted || state == Started then Some(now + 30_000) else None);
        Follows(e.(commands := e.commands[i := c]), k)
  {
    RetriesIs(e, i, revision);
    RecordedIs(e.commands[i], state, revision, now);
    ReconciledIs(e.(commands := e.commands[i := Recorded(e.commands[i], state, revision, now)]), now);
  }

  /** A receipt that does not name them changes nothing. */
  lemma UnknownReceiptKeeps(e: Execution, i: nat, state: State, revision: nat, transient: bool, window: Option<nat>, now: Time)
    ensures Receive(e, i, false, state, revision, transient, window, now) == e
    ensures i >= |e.commands| ==> Receive(e, i, true, state, revision, transient, window, now) == e
  {
  }

  /** Nothing was refused for good. */
  predicate NoneRefused(e: Execution) {
    forall c :: c in e.commands && (c.state == Rejected || c.state == Uncertain) ==> c.supersededBy.Some?
  }

  /** The refused command is superseded by a fresh one behind all others, pending after one, two or four
      minutes, with the refused one's runner, dependency and expiry and its own delivery window. */
  predicate Replaced(e: Execution, k: Execution, i: nat, revision: nat, window: Option<nat>, now: Time)
    requires i < |e.commands|
  {
    var c, n := e.commands[i], |e.commands|;
    && |k.commands| == n + 1 && k.transmitted == e.transmitted
    && k.commands[i] == c.(state := Rejected, revision := revision, nextAttemptAt := None, supersededBy := Some(n))
    && k.commands[n] == Command(c.runner, Pending, 0, true, None, c.dependency, 0, Some(now + 60_000 * Pow2(Superseded(e.commands))), c.expiresAt,
                                if window.None? then None else Some(now + window.value))
    && (forall j :: 0 <= j < n && j != i ==> k.commands[j] == e.commands[j])
  }

  lemma RetriedIs(e: Execution, i: nat, revision: nat, window: Option<nat>, now: Time)
    requires i < |e.commands|
    ensures var f := Retried(e, i, revision, now, window);
      Replaced(e, f, i, revision, window, now) && f.status == e.status && f.workflow == e.workflow && (NoneRefused(e) ==> NoneRefused(f))
  {
    RetryDelayIs(Superseded(e.commands) + 1);
    var f := Retried(e, i, revision, now, window);
    if NoneRefused(e) {
      forall c | c in f.commands && (c.state == Rejected || c.state == Uncertain) ensures c.supersededBy.Some? {
        var j :| 0 <= j < |f.commands| && f.commands[j] == c;
        assert j < |e.commands| && j != i ==> e.commands[j] in e.commands;
      }
    }
  }

  lemma RetriesIs(e: Execution, i: nat, revision: nat)
    ensures Retries(e, i, revision) <==> RetriesLaunch(e, i, revision)
  {
  }

  /** A launch that is tried again is replaced, and the execution does not fail by it. */
  lemma TransientRefusalRetries(e: Execution, i: nat, revision: nat, window: Option<nat>, now: Time)
    requires RetriesLaunch(e, i, revision) && NoneRefused(e)
    ensures var k := Receive(e, i, true, Rejected, revision, true, window, now);
      Replaced(e, k, i, revision, window, now) && k.status != FailedByCommand
  {
    RetriesIs(e, i, revision);
    RetriedIs(e, i, revision, window, now);
    ReconciledIs(Retried(e, i, revision, now, window), now);
  }

  lemma {:induction false} RetryDelayIs(attempt: nat)
    requires 1 <= attempt
    ensures RetryDelay(attempt) == 60_000 * Pow2(attempt - 1)
  {
    if 1 < attempt { RetryDelayIs(attempt - 1); }
  }

  // ----- writing off -----

  /** Nothing was acknowledged, something is still to be delivered, and every deadline of what is has passed. */
  predicate TooLate(e: Execution, now: Time) {
    && (e.status == Dispatching || e.status == Running)
    && (forall c :: c in e.commands ==> c.state != Accepted && c.state != Started && c.state != Completed)
    && (exists c :: c in e.commands && c.state in {Staged, Pending, Sent})
    && (forall c :: c in e.commands && c.state in {Staged, Pending, Sent} ==> c.deliveryDeadline.Some? && c.deliveryDeadline.value <= now)
  }

  lemma TooLateIs(e: Execution, now: Time)
    ensures Live(e) && Undeliverable(e, now) <==> TooLate(e, now)
  {
    if Live(e) && Undeliverable(e, now) {
      forall c | c in e.commands ensures c.state != Accepted && c.state != Started && c.state != Completed {
        assert !Acknowledged(c.state);
      }
    }
  }

  lemma EachOffEnds(e: Execution, now: Time, j: nat)
    requires j < |e.commands|
    ensures EndedWith(e.commands[j], EachOff(e.commands, now)[j]) && Terminal(EachOff(e.commands, now)[j].state)
  {
  }

  /** The sweep writes off exactly the live executions of which nothing was acknowledged, something is
      still to be delivered, and every deadline of what is has passed; each of their commands then ends. */
  lemma SweepWritesOff(e: Execution, now: Time)
    requires Ended(e)
    ensures var k := Apply(e, Sweep(now));
      if TooLate(e, now) then
        && k.status == FailedByCommand && |k.commands| == |e.commands|
        && forall j :: 0 <= j < |e.commands| ==> EndedWith(e.commands[j], k.commands[j])
      else k == e
  {
    TooLateIs(e, now);
    if TooLate(e, now) {
      WrittenOffIsSettled(e, now);
      ReconciledIs(e.(commands := EachOff(e.commands, now)), now);
      forall j | 0 <= j < |e.commands| ensures EndedWith(e.commands[j], Swept(e, now).commands[j]) {
        EachOffEnds(e, now, j);
      }
    }
  }

  /** An activation makes exactly the staged commands of a dispatching execution pending, due at once. */
  lemma ActivationReleases(e: Execution, now: Time)
    ensures var k := Apply(e, Activate(now));
      && k.status == e.status && k.transmitted == e.transmitted && |k.commands| == |e.commands|
      && forall j :: 0 <= j < |e.commands| ==>
           k.commands[j] == if e.status == Dispatching && e.commands[j].state == Staged
                            then e.commands[j].(state := Pending, nextAttemptAt := Some(now)) else e.commands[j]
  {
  }

  /** A command whose expiry has come ends, as uncertain if it may be running and as rejected otherwise. */
  lemma ExpiryEnds(e: Execution, i: nat, now: Time)
    requires i < |e.commands| && e.commands[i].expiresAt.Some? && e.commands[i].state !in {Completed, Rejected, Uncertain}
    ensures var k := Apply(e, Expire(i, now));
      if e.commands[i].expiresAt.value <= now
      then i < |k.commands| && EndedWith(e.commands[i], k.commands[i]) else k == e
  {
    var f := e.(commands := e.commands[i := Off(e.commands[i], now)]);
    ReconciledIs(f, now);
    OffIsTerminal(e.commands[i], now);
  }

  /** An execution reported running leaves dispatching; one reported settled ends. A settled one stays. */
  lemma ReportMoves(e: Execution, running: bool)
    ensures var k := Apply(e, Settle(running));
      && k.commands == e.commands && k.transmitted == e.transmitted
      && k.status == if e.status in {FailedByCommand, SettledOtherwise} then e.status else if running then Running else SettledOtherwise
  {
  }
}
