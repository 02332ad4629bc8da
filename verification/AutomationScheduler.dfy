/** The scheduler on its rows: each operation updates the automation's cursor, wait and executions in
    place, and is proved to leave exactly what the corresponding function of `Scheduler` gives. */
module AutomationScheduler {
  import opened Scheduler
  import opened Options

  /** The due occurrences, found by walking the cron from the cursor. */
  method FindDue(cron: Cron, first: Time, now: Time) returns (plan: DuePlan)
    ensures plan == PlanFor(cron, first, now)
  {
    var occurrences := [first];
    var cursor := first;
    ghost var all := [first] + FiresAfter(cron, first, now, MAX_MISSED_OCCURRENCES - 1);
    while |occurrences| < MAX_MISSED_OCCURRENCES
      invariant 1 <= |occurrences| <= MAX_MISSED_OCCURRENCES && cursor == occurrences[|occurrences| - 1]
      invariant all == occurrences + FiresAfter(cron, cursor, now, MAX_MISSED_OCCURRENCES - |occurrences|)
      decreases MAX_MISSED_OCCURRENCES - |occurrences|
    {
      var next := cron(cursor);
      if next > now {
        assert all == occurrences;
        return DuePlan(occurrences, next, false);
      }
      assert all == (occurrences + [next]) + FiresAfter(cron, next, now, MAX_MISSED_OCCURRENCES - |occurrences| - 1);
      occurrences := occurrences + [next];
      cursor := next;
    }
    assert all == occurrences;
    return DuePlan(occurrences, cron(now), true);
  }

  /** The first free slot from `start` on. */
  method PastTaken(executions: map<Time, Status>, start: Time) returns (slot: Time)
    ensures start <= slot && slot !in executions && forall t :: start <= t < slot ==> t in executions
  {
    var latest := Latest(executions);
    slot := start;
    while slot in executions
      invariant start <= slot && forall t :: start <= t < slot ==> t in executions
      decreases if latest.Some? then latest.value - slot else 0
    {
      slot := slot + 1;
    }
  }

  /** One more claim of the rest of a catch-up. */
  lemma RestContinues(p: Spec, s: Automation, k: Automation, answer: Answer, count: nat, room: nat, now: Time, targets: Time -> Target)
    requires 0 < room && s.cursor <= now
    requires var plan := PlanFor(p.cron, s.cursor, now);
      var next := if |plan.occurrences| > 1 then plan.occurrences[1] else plan.future;
      (k, answer) == Dispatch(p, s, s.cursor, s.cursor, next, now, targets(s.cursor))
    ensures RunRest(p, s, count, room, now, targets) ==
      if answer.Threw? then (k, Exception) else if answer.Held? then (k, Counted(count)) else RunRest(p, k, count + 1, room - 1, now, targets)
  {
  }

  class AutomationRows {
    var cursor: Time
    var waiting: Option<Waiting>
    var executions: map<Time, Status>
    ghost var claims: Claims

    ghost function Rows(): Automation
      reads this
    {
      Automation(cursor, waiting, executions, claims)
    }

    constructor (start: Time)
      ensures Rows() == New(start)
    {
      cursor, waiting, executions, claims := start, None, map[], Since(start);
    }

    method HasLive() returns (live: bool)
      ensures live == AnyLive(Rows())
    {
      live := exists t :: t in executions && Live(executions[t]);
    }

    /** One transaction: the cursor is compared and set, and the execution inserted under its unique slot. */
    method ClaimOccurrence(expected: Time, scheduledFor: Time, next: Time, status: Status) returns (answer: Answer)
      modifies this
      ensures (Rows(), answer) == Claim(old(Rows()), expected, scheduledFor, next, status)
    {
      if cursor != expected {
        return Held;
      }
      if scheduledFor in executions {
        return Threw;
      }
      cursor := next;
      executions := executions[scheduledFor := status];
      if waiting.Some? && waiting.value.scheduledFor == scheduledFor {
        waiting := None;
      }
      claims := Then(claims, scheduledFor, status);
      return Sent;
    }

    method RecordResolutionWait(scheduledFor: Time, next: Time, now: Time)
      modifies `waiting
      ensures Rows() == RecordWait(old(Rows()), scheduledFor, next, now)
    {
      if cursor == scheduledFor && !(waiting.Some? && waiting.value.scheduledFor == scheduledFor) {
        waiting := Some(Waiting(scheduledFor, next, now));
      }
    }

    method DispatchOccurrence(p: Spec, expected: Time, scheduledFor: Time, next: Time, now: Time, target: Target) returns (answer: Answer)
      modifies this
      ensures (Rows(), answer) == Dispatch(p, old(Rows()), expected, scheduledFor, next, now, target)
    {
      var live := HasLive();
      if live && p.concurrency.Wait? {
        return Held;
      }
      if live && p.concurrency.SkipOverlap? {
        answer := ClaimOccurrence(expected, scheduledFor, next, Skipped);
        return;
      }
      if target.PinLost? {
        return Held;
      }
      if target.Unresolved? {
        if p.expiry.Some? && now - expected >= p.expiry.value {
          answer := ClaimOccurrence(expected, scheduledFor, next, Expired);
          return;
        }
        RecordResolutionWait(scheduledFor, next, now);
        return Held;
      }
      answer := ClaimOccurrence(expected, scheduledFor, next, Dispatching);
    }

    /** The selected occurrences in order, until one is held, throws, or the policy allows only one. */
    method DispatchSelected(p: Spec, plan: DuePlan, overdue: bool, now: Time, targets: Time -> Target) returns (r: Report)
      requires plan.occurrences != []
      modifies this
      ensures (Rows(), r) == RunSelected(p, old(Rows()), plan, overdue, Selected(p, plan, overdue), 0, old(cursor), now, targets)
    {
      var selected := Selected(p, plan, overdue);
      var expected := cursor;
      ghost var all := RunSelected(p, Rows(), plan, overdue, selected, 0, expected, now, targets);
      for index := 0 to |selected|
        invariant all == RunSelected(p, Rows(), plan, overdue, selected, index, expected, now, targets)
      {
        var next := NextOf(p, plan, overdue, selected, index);
        var answer := DispatchOccurrence(p, expected, selected[index], next, now, targets(selected[index]));
        if answer.Threw? {
          return Exception;
        }
        if answer.Held? {
          return Counted(index);
        }
        if !p.concurrency.Parallel? {
          return Counted(index + 1);
        }
        expected := next;
      }
      return Counted(|selected|);
    }

    /** The occurrence the cursor is at, planned anew. */
    method DispatchNext(p: Spec, now: Time, targets: Time -> Target) returns (answer: Answer)
      requires cursor <= now
      modifies this
      ensures var plan := PlanFor(p.cron, old(cursor), now);
        var next := if |plan.occurrences| > 1 then plan.occurrences[1] else plan.future;
        (Rows(), answer) == Dispatch(p, old(Rows()), old(cursor), old(cursor), next, now, targets(old(cursor)))
    {
      var plan := FindDue(p.cron, cursor, now);
      var next := if |plan.occurrences| > 1 then plan.occurrences[1] else plan.future;
      answer := DispatchOccurrence(p, cursor, cursor, next, now, targets(cursor));
    }

    /** The rest of a tick's cap after a waiting occurrence, re-planned from the cursor each time. */
    method DispatchRest(p: Spec, maxRuns: nat, now: Time, targets: Time -> Target) returns (r: Report)
      modifies this
      ensures (Rows(), r) == RunRest(p, old(Rows()), 1, if maxRuns == 0 then 0 else maxRuns - 1, now, targets)
    {
      var count := 1;
      ghost var room: nat := if maxRuns == 0 then 0 else maxRuns - 1;
      ghost var all := RunRest(p, Rows(), 1, room, now, targets);
      while count < maxRuns && cursor <= now
        invariant count >= 1 && room == if maxRuns < count then 0 else maxRuns - count
        invariant all == RunRest(p, Rows(), count, room, now, targets)
        decreases room
      {
        ghost var was := Rows();
        var answer := DispatchNext(p, now, targets);
        RestContinues(p, was, Rows(), answer, count, room, now, targets);
        room := room - 1;
        if answer.Threw? {
          return Exception;
        }
        if answer.Held? {
          break;
        }
        count := count + 1;
      }
      return Counted(count);
    }

    method ResumeWaiting(p: Spec, now: Time, targets: Time -> Target) returns (r: Report)
      requires IsWaiting(Rows())
      modifies this
      ensures (Rows(), r) == ProcessWaiting(p, old(Rows()), now, targets)
    {
      var next := waiting.value.nextFireAt;
      if p.misfire.FireOnce? && waiting.value.firstSeenAt - cursor >= MISFIRE_GRACE {
        var plan := FindDue(p.cron, cursor, now);
        next := plan.future;
      }
      var answer := DispatchOccurrence(p, cursor, cursor, next, now, targets(cursor));
      if answer.Threw? {
        return Exception;
      }
      if answer.Held? {
        return Counted(0);
      }
      if p.misfire.CatchUp? && p.concurrency.Parallel? {
        r := DispatchRest(p, p.misfire.maxRuns, now, targets);
        return;
      }
      return Counted(1);
    }

    /** One tick of the automation. */
    method TickAutomation(p: Spec, now: Time, targets: Time -> Target) returns (r: Report)
      modifies this
      ensures (Rows(), r) == Tick(p, old(Rows()), now, targets)
    {
      if cursor > now {
        return Counted(0);
      }
      if waiting.Some? && waiting.value.scheduledFor == cursor {
        r := ResumeWaiting(p, now, targets);
        return;
      }
      var plan := FindDue(p.cron, cursor, now);
      var overdue := now - cursor >= MISFIRE_GRACE;
      if overdue && p.misfire.SkipMisfire? {
        var answer := ClaimOccurrence(cursor, cursor, plan.future, Skipped);
        return if answer.Threw? then Exception else Counted(1);
      }
      if overdue && p.misfire.FireOnce? {
        var answer := DispatchOccurrence(p, cursor, cursor, plan.future, now, targets(cursor));
        return if answer.Threw? then Exception else if answer.Sent? then Counted(1) else Counted(0);
      }
      r := DispatchSelected(p, plan, overdue, now, targets);
    }

    /** Finds the slot of a trigger execution: past every execution, beside the cursor, and then past
        any slot still taken. */
    method FindTriggerSlot(receivedAt: Time) returns (slot: Time)
      ensures slot == TriggerSlot(Rows(), receivedAt) && slot !in executions
    {
      var latest := Latest(executions);
      slot := if latest.Some? && latest.value + 1 > receivedAt then latest.value + 1 else receivedAt;
      if slot == cursor {
        slot := slot + 1;
      }
      slot := PastTaken(executions, slot);
      TriggerSlotIsFree(Rows(), receivedAt);
    }

    method ProcessTrigger(p: Spec, receivedAt: Time, now: Time, target: Target)
      modifies `executions
      ensures Rows() == Trigger(p, old(Rows()), receivedAt, now, target)
    {
      var live := HasLive();
      if live && p.concurrency.Wait? {
        return;
      }
      var slot := FindTriggerSlot(receivedAt);
      if live && p.concurrency.SkipOverlap? {
        executions := executions[slot := Skipped];
      } else if target.Resolved? {
        executions := executions[slot := Dispatching];
      } else if target.Unresolved? && p.expiry.Some? && now - receivedAt >= p.expiry.value {
        executions := executions[slot := Expired];
      }
    }
  }
}
