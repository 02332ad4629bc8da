/** What one tick and one trigger come to, slot by slot: which occurrences are dispatched, skipped,
    expired or left waiting. */
module TickOutcomes {
  import opened Scheduler
  import opened Options

  /** An execution has not settled. */
  ghost predicate Busy(s: Automation) {
    exists t :: t in s.executions && (s.executions[t] == Dispatching || s.executions[t] == Running)
  }

  lemma BusyIs(s: Automation)
    ensures Busy(s) <==> AnyLive(s)
  {
    if Busy(s) {
      var t :| t in s.executions && (s.executions[t] == Dispatching || s.executions[t] == Running);
      assert Live(s.executions[t]);
    }
  }

  /** Nothing that was there changes. */
  predicate Grows(s: Automation, k: Automation) {
    forall t :: t in s.executions ==> t in k.executions && k.executions[t] == s.executions[t]
  }

  /** An occurrence waits no longer for its target than its automation allows. */
  predicate WaitedOut(p: Spec, t: Time, now: Time) { p.expiry.Some? && now - t >= p.expiry.value }

  /** What an execution that a tick inserts may be: dispatched where its target resolved, skipped for an
      overlap, or expired where its target did not resolve in time. Only under the parallel policy is
      it inserted beside a live one. */
  predicate Justified(p: Spec, live: bool, t: Time, status: Status, now: Time, target: Target) {
    match status
    case Dispatching => target.Resolved? && (live ==> p.concurrency.Parallel?)
    case Skipped => live && p.concurrency.SkipOverlap?
    case Expired => target.Unresolved? && WaitedOut(p, t, now) && (live ==> p.concurrency.Parallel?)
    case _ => false
  }

  ghost predicate AllJustified(p: Spec, live: bool, s: Automation, k: Automation, now: Time, targets: Time -> Target) {
    forall t :: t in k.executions && t !in s.executions ==> Justified(p, live, t, k.executions[t], now, targets(t))
  }

  lemma DispatchInserts(p: Spec, s: Automation, t: Time, next: Time, now: Time, target: Target)
    ensures var (k, answer) := Dispatch(p, s, t, t, next, now, target);
      if answer.Sent? then
        && s.cursor == t && t !in s.executions && k.cursor == next && k.executions.Keys == s.executions.Keys + {t}
        && Justified(p, AnyLive(s), t, k.executions[t], now, target)
        && (forall u :: u in s.executions ==> k.executions[u] == s.executions[u])
      else k.executions == s.executions && k.cursor == s.cursor
    ensures WaitsOn(s, Dispatch(p, s, t, t, next, now, target).0)
  {
  }

  /** What waits is what waited, nothing, or an occurrence the cursor had come to. */
  predicate WaitsOn(s: Automation, k: Automation) {
    k.waiting == s.waiting || k.waiting.None? || s.cursor <= k.waiting.value.scheduledFor
  }

  lemma {:induction false} RunSelectedInserts(p: Spec, s: Automation, plan: DuePlan, overdue: bool, selected: seq<Time>, index: nat,
                                              expected: Time, now: Time, targets: Time -> Target)
    requires index <= |selected| && (index < |selected| ==> expected == selected[index])
    requires forall i :: 0 <= i && i + 1 < |selected| ==> NextOf(p, plan, overdue, selected, i) == selected[i + 1]
    ensures var k := RunSelected(p, s, plan, overdue, selected, index, expected, now, targets).0;
      Grows(s, k) && AllJustified(p, AnyLive(s), s, k, now, targets)
    decreases |selected| - index
  {
    if index < |selected| {
      var next := NextOf(p, plan, overdue, selected, index);
      DispatchInserts(p, s, expected, next, now, targets(selected[index]));
      if p.concurrency.Parallel? {
        var k := Dispatch(p, s, expected, selected[index], next, now, targets(selected[index])).0;
        RunSelectedInserts(p, k, plan, overdue, selected, index + 1, next, now, targets);
      }
    }
  }

  lemma {:induction false} RunRestInserts(p: Spec, s: Automation, count: nat, room: nat, now: Time, targets: Time -> Target)
    requires p.concurrency.Parallel?
    ensures var k := RunRest(p, s, count, room, now, targets).0;
      Grows(s, k) && AllJustified(p, AnyLive(s), s, k, now, targets)
    decreases room
  {
    if room != 0 && s.cursor <= now {
      var plan := PlanFor(p.cron, s.cursor, now);
      var next := if |plan.occurrences| > 1 then plan.occurrences[1] else plan.future;
      DispatchInserts(p, s, s.cursor, next, now, targets(s.cursor));
      RunRestInserts(p, Dispatch(p, s, s.cursor, s.cursor, next, now, targets(s.cursor)).0, count + 1, room - 1, now, targets);
    }
  }

  lemma ClaimWaitingInserts(p: Spec, s: Automation, next: Time, now: Time, targets: Time -> Target)
    ensures var k := ClaimWaiting(p, s, next, now, targets).0;
      Grows(s, k) && AllJustified(p, AnyLive(s), s, k, now, targets)
  {
    DispatchInserts(p, s, s.cursor, next, now, targets(s.cursor));
    if p.misfire.CatchUp? && p.concurrency.Parallel? {
      var k := Dispatch(p, s, s.cursor, s.cursor, next, now, targets(s.cursor)).0;
      RunRestInserts(p, k, 1, if p.misfire.maxRuns == 0 then 0 else p.misfire.maxRuns - 1, now, targets);
    }
  }

  /** The misfire policy skips the occurrence at the cursor: it is a minute late, and is not waiting for
      its target. */
  predicate SkipsMisfire(p: Spec, s: Automation, now: Time) {
    p.misfire.SkipMisfire? && now - s.cursor >= 60_000 && !(s.waiting.Some? && s.waiting.value.scheduledFor == s.cursor)
  }

  /** A tick changes no execution that was there. It inserts one as dispatched only where its target
      resolved, as expired only where it did not within the time it may wait, and as skipped only for an
      overlap or for a skipped misfire at the cursor; and none is dispatched or expired beside a live one
      unless executions run in parallel. */
  lemma TickInsertsJustified(p: Spec, s: Automation, now: Time, targets: Time -> Target)
    requires ValidSpec(p)
    ensures var k := Tick(p, s, now, targets).0;
      && Grows(s, k)
      && (forall t :: t in k.executions && t !in s.executions ==>
            || Justified(p, Busy(s), t, k.executions[t], now, targets(t))
            || (SkipsMisfire(p, s, now) && t == s.cursor && k.executions[t] == Skipped))
  {
    BusyIs(s);
    if s.cursor <= now {
      if IsWaiting(s) {
        ClaimWaitingInserts(p, s, NextAfterWait(p, s, now), now, targets);
      } else {
        var plan, overdue := PlanFor(p.cron, s.cursor, now), Overdue(s.cursor, now);
        PlanIsDue(p.cron, s.cursor, now);
        if overdue && p.misfire.FireOnce? {
          DispatchInserts(p, s, s.cursor, plan.future, now, targets(s.cursor));
        } else if !(overdue && p.misfire.SkipMisfire?) {
          RunSelectedInserts(p, s, plan, overdue, Selected(p, plan, overdue), 0, s.cursor, now, targets);
        }
      }
    }
  }

  // ----- the occurrence the cursor is at -----

  /** The wait for the occurrence at the cursor is recorded, with the time it was first seen kept;
      nothing else happened. */
  predicate LeftWaiting(s: Automation, k: Automation, now: Time) {
    && k.cursor == s.cursor && k.executions == s.executions && k.claims == s.claims
    && k.waiting.Some? && k.waiting.value.scheduledFor == s.cursor
    && (if s.waiting.Some? && s.waiting.value.scheduledFor == s.cursor then k.waiting == s.waiting else k.waiting.value.firstSeenAt == now)
  }

  /** The occurrence at the cursor was claimed with this status; the cursor moved on, and it waits no more. */
  predicate ClaimedAs(s: Automation, k: Automation, status: Status) {
    && s.cursor in k.executions && k.executions[s.cursor] == status && s.cursor < k.cursor
    && (k.waiting.Some? ==> k.waiting.value.scheduledFor != s.cursor)
  }

  /** What becomes of the occurrence at the cursor. */
  ghost predicate Outcome(p: Spec, s: Automation, k: Automation, now: Time, target: Target) {
    if Busy(s) && p.concurrency.Wait? then k == s
    else if Busy(s) && p.concurrency.SkipOverlap? then ClaimedAs(s, k, Skipped)
    else match target
      case PinLost => k == s
      case Resolved => ClaimedAs(s, k, Dispatching)
      case Unresolved => if WaitedOut(p, s.cursor, now) then ClaimedAs(s, k, Expired) else LeftWaiting(s, k, now)
  }

  lemma DispatchDecides(p: Spec, s: Automation, next: Time, now: Time, target: Target)
    requires s.cursor !in s.executions && s.cursor < next
    ensures var (k, answer) := Dispatch(p, s, s.cursor, s.cursor, next, now, target);
      && Outcome(p, s, k, now, target)
      && (answer.Sent? <==> s.cursor in k.executions) && !answer.Threw?
      && (answer.Sent? ==> k.cursor == next)
  {
    BusyIs(s);
  }

  /** Later claims of the same tick leave it as it is. */
  lemma OutcomeStays(p: Spec, s: Automation, j: Automation, k: Automation, now: Time, target: Target)
    requires Outcome(p, s, j, now, target) && s.cursor in j.executions && s.cursor !in s.executions
    requires Grows(j, k) && j.cursor <= k.cursor && WaitsOn(j, k)
    ensures Outcome(p, s, k, now, target)
  {
  }

  lemma {:induction false} RestMovesOn(p: Spec, s: Automation, count: nat, room: nat, now: Time, targets: Time -> Target)
    requires ValidSpec(p)
    ensures var k := RunRest(p, s, count, room, now, targets).0; s.cursor <= k.cursor && WaitsOn(s, k)
    decreases room
  {
    if room != 0 && s.cursor <= now {
      RestLeads(p, s, now);
      var plan := PlanFor(p.cron, s.cursor, now);
      var next := if |plan.occurrences| > 1 then plan.occurrences[1] else plan.future;
      DispatchInserts(p, s, s.cursor, next, now, targets(s.cursor));
      RestMovesOn(p, Dispatch(p, s, s.cursor, s.cursor, next, now, targets(s.cursor)).0, count + 1, room - 1, now, targets);
    }
  }

  lemma {:induction false} SelectedMovesOn(p: Spec, s: Automation, plan: DuePlan, overdue: bool, index: nat, first: Time,
                                           expected: Time, now: Time, targets: Time -> Target)
    requires ValidSpec(p) && first <= now && plan == PlanFor(p.cron, first, now) && plan.occurrences != []
    requires index <= |Selected(p, plan, overdue)| && (index < |Selected(p, plan, overdue)| ==> expected == Selected(p, plan, overdue)[index])
    ensures var k := RunSelected(p, s, plan, overdue, Selected(p, plan, overdue), index, expected, now, targets).0;
      s.cursor <= k.cursor && WaitsOn(s, k)
    decreases |Selected(p, plan, overdue)| - index
  {
    var selected := Selected(p, plan, overdue);
    if index < |selected| {
      var next := NextOf(p, plan, overdue, selected, index);
      NextLeads(p, plan, overdue, now, first, index);
      DispatchInserts(p, s, expected, next, now, targets(selected[index]));
      SelectedMovesOn(p, Dispatch(p, s, expected, selected[index], next, now, targets(selected[index])).0, plan, overdue, index + 1, first,
                      next, now, targets);
    }
  }

  lemma WaitingDecides(p: Spec, s: Automation, next: Time, now: Time, targets: Time -> Target)
    requires ValidSpec(p) && s.cursor !in s.executions && s.cursor < next
    ensures Outcome(p, s, ClaimWaiting(p, s, next, now, targets).0, now, targets(s.cursor))
  {
    var target := targets(s.cursor);
    DispatchDecides(p, s, next, now, target);
    var (j, answer) := Dispatch(p, s, s.cursor, s.cursor, next, now, target);
    if answer.Sent? && p.misfire.CatchUp? && p.concurrency.Parallel? {
      RunRestInserts(p, j, 1, p.misfire.maxRuns - 1, now, targets);
      RestMovesOn(p, j, 1, p.misfire.maxRuns - 1, now, targets);
      OutcomeStays(p, s, j, RunRest(p, j, 1, p.misfire.maxRuns - 1, now, targets).0, now, target);
    }
  }

  lemma SelectedDecides(p: Spec, s: Automation, plan: DuePlan, overdue: bool, now: Time, targets: Time -> Target)
    requires ValidSpec(p) && s.cursor <= now && plan == PlanFor(p.cron, s.cursor, now) && plan.occurrences != []
    requires s.cursor !in s.executions
    ensures Outcome(p, s, RunSelected(p, s, plan, overdue, Selected(p, plan, overdue), 0, s.cursor, now, targets).0, now, targets(s.cursor))
  {
    PlanIsDue(p.cron, s.cursor, now);
    var selected, target := Selected(p, plan, overdue), targets(s.cursor);
    var next := NextOf(p, plan, overdue, selected, 0);
    NextLeads(p, plan, overdue, now, s.cursor, 0);
    DispatchDecides(p, s, next, now, target);
    var (j, answer) := Dispatch(p, s, s.cursor, s.cursor, next, now, target);
    if answer.Sent? && p.concurrency.Parallel? {
      forall i | 0 <= i && i + 1 < |selected| ensures NextOf(p, plan, overdue, selected, i) == selected[i + 1] {
        NextLeads(p, plan, overdue, now, s.cursor, i);
      }
      RunSelectedInserts(p, j, plan, overdue, selected, 1, next, now, targets);
      SelectedMovesOn(p, j, plan, overdue, 1, s.cursor, next, now, targets);
      OutcomeStays(p, s, j, RunSelected(p, j, plan, overdue, selected, 1, next, now, targets).0, now, target);
    }
  }

  /** What a tick makes of the occurrence its cursor is at, when it is due and its slot is free. A late
      one is skipped where misfires are. Otherwise it waits for, or is skipped beside, a live execution;
      is left alone when a pin could not be saved; is dispatched when its target resolves; and when the
      target does not, expires exactly when it may wait no longer, and is left waiting before. */
  lemma DueOccurrence(p: Spec, s: Automation, now: Time, targets: Time -> Target)
    requires ValidSpec(p) && Sound(p, s) && s.cursor <= now && s.cursor !in s.executions
    ensures var k := Tick(p, s, now, targets).0;
      if SkipsMisfire(p, s, now) then ClaimedAs(s, k, Skipped) else Outcome(p, s, k, now, targets(s.cursor))
  {
    if IsWaiting(s) {
      NextAfterWaitLeads(p, s, now);
      WaitingDecides(p, s, NextAfterWait(p, s, now), now, targets);
    } else {
      var plan, overdue := PlanFor(p.cron, s.cursor, now), Overdue(s.cursor, now);
      PlanIsDue(p.cron, s.cursor, now);
      if overdue && p.misfire.FireOnce? {
        DispatchDecides(p, s, plan.future, now, targets(s.cursor));
      } else if !(overdue && p.misfire.SkipMisfire?) {
        SelectedDecides(p, s, plan, overdue, now, targets);
      }
    }
  }

  /** Nothing is due before its time. */
  lemma NotDueYet(p: Spec, s: Automation, now: Time, targets: Time -> Target)
    requires now < s.cursor
    ensures Tick(p, s, now, targets) == (s, Counted(0))
  {
  }

  // ----- an occurrence that waited -----

  /** Where the cursor goes when an occurrence that waited is claimed: past the backlog to the next fire
      after now, when only one is to fire and this one was first seen a minute late or later; otherwise
      to the fire recorded with the wait. */
  lemma WaitedMovesOn(p: Spec, s: Automation, now: Time, targets: Time -> Target)
    requires ValidSpec(p) && Sound(p, s) && s.cursor <= now && s.cursor !in s.executions
    requires s.waiting.Some? && s.waiting.value.scheduledFor == s.cursor && !(p.misfire.CatchUp? && p.concurrency.Parallel?)
    ensures var k := Tick(p, s, now, targets).0;
      if s.cursor in k.executions then
        k.cursor == if p.misfire.FireOnce? && s.waiting.value.firstSeenAt - s.cursor >= 60_000 then p.cron(now) else s.waiting.value.nextFireAt
      else k.cursor == s.cursor
  {
    NextAfterWaitLeads(p, s, now);
    DispatchDecides(p, s, NextAfterWait(p, s, now), now, targets(s.cursor));
    PlanIsDue(p.cron, s.cursor, now);
  }

  /** Fewer of the same fires. */
  lemma {:induction false} FewerFires(cron: Cron, from: Time, now: Time, few: nat, many: nat)
    requires few <= many
    ensures var ts := FiresAfter(cron, from, now, many); FiresAfter(cron, from, now, few) == ts[..Min(few, |ts|)]
    decreases few
  {
    if few != 0 && cron(from) <= now { FewerFires(cron, cron(from), now, few - 1, many - 1); }
  }

  /** The due occurrences, `room` at the most. */
  function DueUpTo(cron: Cron, first: Time, now: Time, room: nat): seq<Time> {
    if room == 0 || first > now then [] else [first] + FiresAfter(cron, first, now, room - 1)
  }

  lemma {:induction false} RestDispatches(p: Spec, s: Automation, count: nat, room: nat, now: Time, targets: Time -> Target)
    requires ValidSpec(p) && p.misfire.CatchUp? && p.concurrency.Parallel? && Sound(p, s) && Clear(p, s)
    requires forall t :: targets(t).Resolved?
    ensures var ts := DueUpTo(p.cron, s.cursor, now, room);
      var (k, r) := RunRest(p, s, count, room, now, targets);
      r == Counted(count + |ts|) && k.executions == WithDispatched(s.executions, ts)
    decreases room
  {
    if room != 0 && s.cursor <= now {
      RestLeads(p, s, now);
      var plan := PlanFor(p.cron, s.cursor, now);
      var next := if |plan.occurrences| > 1 then plan.occurrences[1] else plan.future;
      OneStaysClear(p, s, next, now, targets(s.cursor));
      RestDispatches(p, Dispatch(p, s, s.cursor, s.cursor, next, now, targets(s.cursor)).0, count + 1, room - 1, now, targets);
      assert DueUpTo(p.cron, s.cursor, now, room)[1..] == DueUpTo(p.cron, next, now, room - 1);
    }
  }

  lemma OldestDue(cron: Cron, first: Time, now: Time, runs: nat)
    requires 1 <= runs <= MAX_CATCH_UP_RUNS
    ensures var due := PlanFor(cron, first, now).occurrences;
      due[..Min(runs, |due|)] == [first] + DueUpTo(cron, cron(first), now, runs - 1)
  {
    FewerFires(cron, first, now, runs - 1, MAX_MISSED_OCCURRENCES - 1);
  }

  /** A parallel catch-up that had to wait for its target loses nothing: once the targets resolve it
      dispatches exactly its oldest due occurrences, all of them or `maxRuns` when there are more. */
  lemma WaitedCatchUpDispatchesOldest(p: Spec, s: Automation, now: Time, targets: Time -> Target)
    requires ValidSpec(p) && p.misfire.CatchUp? && p.concurrency.Parallel? && Sound(p, s) && Clear(p, s)
    requires s.cursor <= now && s.waiting.Some? && s.waiting.value.scheduledFor == s.cursor && forall t :: targets(t).Resolved?
    ensures var due := PlanFor(p.cron, s.cursor, now).occurrences;
      var n := Min(p.misfire.maxRuns, |due|);
      var (k, r) := Tick(p, s, now, targets);
      r == Counted(n) && k.executions == WithDispatched(s.executions, due[..n])
  {
    var next, runs := NextAfterWait(p, s, now), p.misfire.maxRuns;
    var rest := DueUpTo(p.cron, next, now, runs - 1);
    NextAfterWaitLeads(p, s, now);
    OneStaysClear(p, s, next, now, targets(s.cursor));
    RestDispatches(p, Dispatch(p, s, s.cursor, s.cursor, next, now, targets(s.cursor)).0, 1, runs - 1, now, targets);
    OldestDue(p.cron, s.cursor, now, runs);
    assert ([s.cursor] + rest)[1..] == rest;
  }

  // ----- triggers -----

  /** The latest of the slots taken. */
  ghost predicate LatestIs(s: Automation, t: Time) {
    t in s.executions && forall u :: u in s.executions ==> u <= t
  }

  /** Where a trigger execution goes: to the time it was received, or right behind the latest execution
      when that is not before it; and one further where that is the slot the cursor is at. */
  lemma TriggerGoes(s: Automation, receivedAt: Time, latest: Time)
    requires s.executions.Keys == {} || LatestIs(s, latest)
    ensures var slot := if s.executions.Keys != {} && latest >= receivedAt then latest + 1 else receivedAt;
      TriggerSlot(s, receivedAt) == if slot == s.cursor then slot + 1 else slot
  {
  }

  /** What becomes of a pending invocation: it stays pending for a live execution to wait for, a lost pin,
      or an unresolved target that may still resolve; otherwise it takes its slot, skipped beside a live
      execution, dispatched when its target resolves, and expired when it may wait no longer. */
  lemma TriggerDecides(p: Spec, s: Automation, receivedAt: Time, now: Time, target: Target)
    ensures var k, slot := Trigger(p, s, receivedAt, now, target), TriggerSlot(s, receivedAt);
      && k.cursor == s.cursor && k.waiting == s.waiting && k.claims == s.claims
      && k.executions ==
        if Busy(s) && p.concurrency.Wait? then s.executions
        else if Busy(s) && p.concurrency.SkipOverlap? then s.executions[slot := Skipped]
        else match target
          case PinLost => s.executions
          case Resolved => s.executions[slot := Dispatching]
          case Unresolved => if WaitedOut(p, receivedAt, now) then s.executions[slot := Expired] else s.executions
  {
    BusyIs(s);
  }

  /** A report moves a live execution to the status it names, and no other. */
  lemma ProgressMoves(s: Automation, at: Time, status: Status)
    ensures var k := Progress(s, at, status);
      && k.cursor == s.cursor && k.waiting == s.waiting && k.claims == s.claims && k.executions.Keys == s.executions.Keys
      && forall t :: t in s.executions ==> k.executions[t] == if t == at && s.executions[t] in {Dispatching, Running} then status else s.executions[t]
  {
  }
}
