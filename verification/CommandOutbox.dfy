/** The outbox over all executions: the loop that drains a runner which lost the capability to
    acknowledge commands. */
module CommandOutbox {
  import opened Outbox

  type ExecutionId = string

  const MAX_BATCH := 100

  predicate ActiveAt(e: Execution, i: nat, runner: string) {
    Live(e) && i < |e.commands| && e.commands[i].runner == runner && !Terminal(e.commands[i].state)
  }

  /** The runner's commands that are still in play, of executions that are. */
  function ActiveRows(executions: map<ExecutionId, Execution>, runner: string): set<(ExecutionId, nat)> {
    set x, i | x in executions && 0 <= i < |executions[x].commands| && ActiveAt(executions[x], i, runner) :: (x, i)
  }

  /** A command of the runner, active or not. */
  predicate Owned(executions: map<ExecutionId, Execution>, row: (ExecutionId, nat), runner: string) {
    row.0 in executions && row.1 < |executions[row.0].commands| && executions[row.0].commands[row.1].runner == runner
  }

  /** Failing one row ends it, and activates none. */
  lemma RowEnds(e: Execution, i: nat, now: Time, runner: string)
    requires Ended(e) && i < |e.commands|
    ensures var f := FlushRow(e, i, now, Incapable);
      Moves(e, f) && |f.commands| == |e.commands| && !ActiveAt(f, i, runner)
      && forall j: nat :: ActiveAt(f, j, runner) ==> ActiveAt(e, j, runner)
  {
    FlushRowMoves(e, i, now, Incapable);
    OffIsTerminal(e.commands[i], now);
    var f := FlushRow(e, i, now, Incapable);
    RowSends(e, i, now, Incapable);
    assert Terminal(f.commands[i].state);
    forall j: nat | ActiveAt(f, j, runner) ensures ActiveAt(e, j, runner) {
      assert Forward(e.commands[j], f.commands[j]);
    }
  }

  /** An execution that no command of the runner is active in. */
  predicate Untouched(e: Execution, runner: string) {
    forall i: nat :: i < |e.commands| ==> !ActiveAt(e, i, runner)
  }

  /** What a drain does to the table: rows move forward, and only where the runner had an active one. */
  ghost predicate Drains(before: map<ExecutionId, Execution>, after: map<ExecutionId, Execution>, runner: string) {
    && after.Keys == before.Keys
    && (forall x :: x in before ==> Moves(before[x], after[x]))
    && (forall x :: x in before && Untouched(before[x], runner) ==> after[x] == before[x])
  }

  /** A command of an execution in which the runner had an active one. */
  predicate Listable(before: map<ExecutionId, Execution>, middle: map<ExecutionId, Execution>, row: (ExecutionId, nat), runner: string) {
    row.0 in before && !Untouched(before[row.0], runner) && Owned(middle, row, runner)
  }

  lemma ActiveIsListable(before: map<ExecutionId, Execution>, middle: map<ExecutionId, Execution>, row: (ExecutionId, nat), runner: string)
    requires Drains(before, middle, runner) && row in ActiveRows(middle, runner)
    ensures Listable(before, middle, row, runner)
  {
    var e, f := before[row.0], middle[row.0];
    assert ActiveAt(f, row.1, runner) && Moves(e, f);
    assert Untouched(e, runner) ==> f == e;
  }

  /** The row's command has ended. */
  predicate Over(executions: map<ExecutionId, Execution>, row: (ExecutionId, nat)) {
    row.0 in executions && row.1 < |executions[row.0].commands| && Terminal(executions[row.0].commands[row.1].state)
  }

  /** The row is still there, and has not come back if it had ended. */
  predicate Kept(before: map<ExecutionId, Execution>, after: map<ExecutionId, Execution>, row: (ExecutionId, nat), runner: string) {
    Owned(after, row, runner) && (Over(before, row) ==> Over(after, row))
  }

  ghost predicate AllKept(before: map<ExecutionId, Execution>, after: map<ExecutionId, Execution>, runner: string) {
    forall row: (ExecutionId, nat) :: Owned(before, row, runner) ==> Kept(before, after, row, runner)
  }

  /** Failing a listed row ends it, whether or not its execution has been settled meanwhile. */
  lemma FailingDrains(before: map<ExecutionId, Execution>, middle: map<ExecutionId, Execution>, row: (ExecutionId, nat), now: Time, runner: string)
    requires Drains(before, middle, runner) && Listable(before, middle, row, runner) && Ended(middle[row.0])
    ensures var f := FlushRow(middle[row.0], row.1, now, Incapable);
      Drains(before, middle[row.0 := f], runner) && Ended(f)
  {
    var f := FlushRow(middle[row.0], row.1, now, Incapable);
    RowEnds(middle[row.0], row.1, now, runner);
    MovesTwice(before[row.0], middle[row.0], f);
  }

  lemma FailingShrinks(middle: map<ExecutionId, Execution>, row: (ExecutionId, nat), now: Time, runner: string)
    requires Owned(middle, row, runner) && Ended(middle[row.0])
    ensures ActiveRows(middle[row.0 := FlushRow(middle[row.0], row.1, now, Incapable)], runner) <= ActiveRows(middle, runner) - {row}
  {
    var after := middle[row.0 := FlushRow(middle[row.0], row.1, now, Incapable)];
    RowEnds(middle[row.0], row.1, now, runner);
    forall y, j | (y, j) in ActiveRows(after, runner) ensures (y, j) in ActiveRows(middle, runner) - {row} {
      assert ActiveAt(after[y], j, runner);
    }
  }

  lemma FailingKeeps(middle: map<ExecutionId, Execution>, row: (ExecutionId, nat), now: Time, runner: string)
    requires Owned(middle, row, runner) && Ended(middle[row.0])
    ensures var after := middle[row.0 := FlushRow(middle[row.0], row.1, now, Incapable)];
      AllKept(middle, after, runner) && Over(after, row)
  {
    var e := middle[row.0];
    var f := FlushRow(e, row.1, now, Incapable);
    RowEnds(e, row.1, now, runner);
    OffIsTerminal(e.commands[row.1], now);
    RowSettles(e, row.1, now);
    forall other: (ExecutionId, nat) | Owned(middle, other, runner) ensures Kept(middle, middle[row.0 := f], other, runner) {
      if other.0 == row.0 { assert Forward(e.commands[other.1], f.commands[other.1]); }
    }
  }

  /** The command of a failed row ends. */
  lemma RowSettles(e: Execution, i: nat, now: Time)
    requires Ended(e) && i < |e.commands|
    ensures var f := FlushRow(e, i, now, Incapable); |f.commands| == |e.commands| && Terminal(f.commands[i].state)
  {
    OffIsTerminal(e.commands[i], now);
    var c := Off(e.commands[i], now);
    RowSends(e, i, now, Incapable);
    if c != e.commands[i] {
      var g := e.(commands := e.commands[i := c]);
      OffIsTerminal(g.commands[i], now);
    }
  }

  /** One listed row fails: its command ends, also where an earlier row settled the execution meanwhile. */
  function FailRow(executions: map<ExecutionId, Execution>, row: (ExecutionId, nat), now: Time): map<ExecutionId, Execution> {
    if row.0 in executions then executions[row.0 := FlushRow(executions[row.0], row.1, now, Incapable)] else executions
  }

  function FailRows(executions: map<ExecutionId, Execution>, batch: seq<(ExecutionId, nat)>, now: Time): map<ExecutionId, Execution>
    decreases |batch|
  {
    if batch == [] then executions else FailRows(FailRow(executions, batch[0], now), batch[1..], now)
  }

  ghost predicate AllEnded(executions: map<ExecutionId, Execution>) {
    forall x :: x in executions ==> Ended(executions[x])
  }

  predicate AllListable(before: map<ExecutionId, Execution>, middle: map<ExecutionId, Execution>, batch: seq<(ExecutionId, nat)>, runner: string) {
    forall j :: 0 <= j < |batch| ==> Listable(before, middle, batch[j], runner)
  }

  lemma RowDrains(before: map<ExecutionId, Execution>, middle: map<ExecutionId, Execution>, row: (ExecutionId, nat), now: Time, runner: string)
    requires AllEnded(middle) && Drains(before, middle, runner) && Listable(before, middle, row, runner)
    ensures var after := FailRow(middle, row, now);
      && AllEnded(after) && Drains(before, after, runner) && AllKept(middle, after, runner)
      && Over(after, row) && ActiveRows(after, runner) <= ActiveRows(middle, runner) - {row}
  {
    FailingDrains(before, middle, row, now, runner);
    FailingShrinks(middle, row, now, runner);
    FailingKeeps(middle, row, now, runner);
  }

  lemma KeptStaysListable(before: map<ExecutionId, Execution>, was: map<ExecutionId, Execution>, after: map<ExecutionId, Execution>,
                          batch: seq<(ExecutionId, nat)>, runner: string)
    requires batch != [] && AllKept(was, after, runner) && AllListable(before, was, batch, runner)
    ensures AllListable(before, after, batch[1..], runner)
  {
    forall j | 0 <= j < |batch[1..]| ensures Listable(before, after, batch[1..][j], runner) {
      assert Listable(before, was, batch[j + 1], runner);
      assert Kept(was, after, batch[j + 1], runner);
    }
  }

  lemma KeptTwice(a: map<ExecutionId, Execution>, b: map<ExecutionId, Execution>, c: map<ExecutionId, Execution>, runner: string)
    requires AllKept(a, b, runner) && AllKept(b, c, runner)
    ensures AllKept(a, c, runner)
  {
    forall row: (ExecutionId, nat) | Owned(a, row, runner) ensures Kept(a, c, row, runner) {
      assert Kept(a, b, row, runner) && Kept(b, c, row, runner);
    }
  }

  /** Failing a whole list of rows ends every one of their commands, activates none, and touches no
      execution that the runner had no part in. */
  lemma {:induction false} RowsDrain(before: map<ExecutionId, Execution>, middle: map<ExecutionId, Execution>, batch: seq<(ExecutionId, nat)>,
                                     now: Time, runner: string)
    requires AllEnded(middle) && Drains(before, middle, runner) && AllListable(before, middle, batch, runner)
    ensures var after := FailRows(middle, batch, now);
      && AllEnded(after) && Drains(before, after, runner) && AllKept(middle, after, runner)
      && ActiveRows(after, runner) <= ActiveRows(middle, runner)
      && forall j :: 0 <= j < |batch| ==> Over(after, batch[j])
    decreases |batch|
  {
    if batch != [] {
      var one, rest := FailRow(middle, batch[0], now), batch[1..];
      assert Listable(before, middle, batch[0], runner);
      RowDrains(before, middle, batch[0], now, runner);
      KeptStaysListable(before, middle, one, batch, runner);
      RowsDrain(before, one, rest, now, runner);
      var after := FailRows(one, rest, now);
      KeptTwice(middle, one, after, runner);
      assert Kept(one, after, batch[0], runner);
      forall j | 0 <= j < |batch| ensures Over(after, batch[j]) {
        if j > 0 { assert batch[j] == rest[j - 1]; }
      }
    }
  }

  /** Failing an active row strictly shrinks what is active. */
  lemma DrainsOn(before: map<ExecutionId, Execution>, middle: map<ExecutionId, Execution>, x: ExecutionId, i: nat, now: Time, runner: string)
    requires Drains(before, middle, runner) && x in middle && Ended(middle[x]) && ActiveAt(middle[x], i, runner)
    ensures var after := middle[x := FlushRow(middle[x], i, now, Incapable)];
      Drains(before, after, runner) && ActiveRows(after, runner) < ActiveRows(middle, runner)
  {
    assert (x, i) in ActiveRows(middle, runner);
    ActiveIsListable(before, middle, (x, i), runner);
    FailingDrains(before, middle, (x, i), now, runner);
    FailingShrinks(middle, (x, i), now, runner);
  }

  /** No row of the runner is active exactly when every command of it has ended or belongs to an execution
      that has. */
  lemma DrainedMeans(executions: map<ExecutionId, Execution>, runner: string)
    ensures ActiveRows(executions, runner) == {} <==>
      forall x, i :: x in executions && 0 <= i < |executions[x].commands| && executions[x].commands[i].runner == runner ==>
        || executions[x].commands[i].state in {Completed, Rejected, Uncertain}
        || executions[x].status in {FailedByCommand, SettledOtherwise}
  {
    forall x, i | x in executions && 0 <= i < |executions[x].commands|
      ensures (x, i) in ActiveRows(executions, runner) <==>
        && executions[x].commands[i].runner == runner && executions[x].commands[i].state !in {Completed, Rejected, Uncertain}
        && executions[x].status !in {FailedByCommand, SettledOtherwise}
    {
    }
    if ActiveRows(executions, runner) != {} {
      var x, i :| (x, i) in ActiveRows(executions, runner);
      assert x in executions && 0 <= i < |executions[x].commands|;
    }
  }

  class OutboxRows {
    var executions: map<ExecutionId, Execution>

    ghost predicate Valid()
      reads this
    {
      AllEnded(executions)
    }

    constructor (staged: map<ExecutionId, Execution>)
      requires forall x :: x in staged ==> Plan(staged[x])
      ensures Valid() && executions == staged
    {
      executions := staged;
    }

    /** At most a batch of the runner's active rows; none only when there are none. */
    method NextBatch(runner: string) returns (batch: seq<(ExecutionId, nat)>)
      ensures |batch| <= MAX_BATCH
      ensures forall row :: row in batch ==> row in ActiveRows(executions, runner)
      ensures batch == [] ==> ActiveRows(executions, runner) == {}
    {
      batch := [];
      var rows := ActiveRows(executions, runner);
      while rows != {} && |batch| < MAX_BATCH
        invariant rows <= ActiveRows(executions, runner) && |batch| <= MAX_BATCH
        invariant forall row :: row in batch ==> row in ActiveRows(executions, runner)
        invariant batch == [] ==> rows == ActiveRows(executions, runner)
        decreases rows
      {
        var row :| row in rows;
        batch := batch + [row];
        rows := rows - {row};
      }
    }

    method FailForCapabilityLoss(row: (ExecutionId, nat), now: Time)
      modifies this
      ensures executions == FailRow(old(executions), row, now)
    {
      if row.0 in executions {
        executions := executions[row.0 := FlushRow(executions[row.0], row.1, now, Incapable)];
      }
    }

    method FailBatch(batch: seq<(ExecutionId, nat)>, now: Time)
      modifies this
      ensures executions == FailRows(old(executions), batch, now)
    {
      for k := 0 to |batch|
        invariant FailRows(executions, batch[k..], now) == FailRows(old(executions), batch, now)
      {
        FailForCapabilityLoss(batch[k], now);
        assert batch[k..][1..] == batch[k + 1..];
      }
    }

    /** Drains a runner, batch after batch. It ends with none of the runner's commands active: each is
        terminal, or its execution is settled; executions it had no part in are as they were. */
    method DrainRunner(runner: string, now: Time)
      requires Valid()
      modifies this
      ensures Valid() && ActiveRows(executions, runner) == {}
      ensures Drains(old(executions), executions, runner)
    {
      ghost var before := executions;
      forall x | x in before ensures Moves(before[x], before[x]) { Still(before[x]); }
      var batch := NextBatch(runner);
      while batch != []
        invariant Valid() && Drains(before, executions, runner)
        invariant forall row :: row in batch ==> row in ActiveRows(executions, runner)
        invariant batch == [] ==> ActiveRows(executions, runner) == {}
        decreases ActiveRows(executions, runner)
      {
        forall j | 0 <= j < |batch| ensures Listable(before, executions, batch[j], runner) {
          assert batch[j] in batch;
          ActiveIsListable(before, executions, batch[j], runner);
        }
        ghost var was := executions;
        RowsDrain(before, was, batch, now, runner);
        FailBatch(batch, now);
        assert batch[0] in batch && Over(executions, batch[0]);
        assert batch[0] in ActiveRows(was, runner) - ActiveRows(executions, runner);
        batch := NextBatch(runner);
      }
    }
  }
}
