/** The automation scheduler as one value: a cron cursor moved by claims, misfire and concurrency
    policies, target waits, and trigger executions that share the automation's occurrence slots. */
module Scheduler {
  import opened Options

  // ----- cron -----

  /** Milliseconds since the epoch. */
  type Time = int

  /** The next fire of a cron expression in its time zone. */
  type Cron = Time -> Time

  ghost predicate Fires(cron: Cron, t: Time) {
    cron(t - 1) == t
  }

  /** `cron` gives the least fire strictly after a time. */
  ghost predicate LeastAfter(cron: Cron) {
    forall t :: t < cron(t) && Fires(cron, cron(t)) && NoneBetween(cron, t, cron(t))
  }

  ghost predicate NoneBetween(cron: Cron, t: Time, u: Time) {
    forall v :: t < v < u ==> !Fires(cron, v)
  }

  // ----- the specification of an automation -----

  datatype Misfire = SkipMisfire | FireOnce | CatchUp(maxRuns: nat)

  datatype Concurrency = Parallel | Wait | SkipOverlap

  /** `expiry`: how long an occurrence waits for its target, in milliseconds. */
  datatype Spec = Spec(cron: Cron, misfire: Misfire, concurrency: Concurrency, expiry: Option<nat>)

  const MISFIRE_GRACE := 60_000
  const MAX_MISSED_OCCURRENCES := 10_000
  const MAX_CATCH_UP_RUNS := 10

  /** What validation accepts. */
  ghost predicate ValidSpec(p: Spec) {
    LeastAfter(p.cron) && (p.misfire.CatchUp? ==> 1 <= p.misfire.maxRuns <= MAX_CATCH_UP_RUNS)
  }

  // ----- state -----

  datatype Status = Dispatching | Running | Succeeded | Failed | Skipped | Expired

  predicate Live(s: Status) { s.Dispatching? || s.Running? }

  /** An occurrence whose target could not be resolved, with the cursor value it will leave. */
  datatype Waiting = Waiting(scheduledFor: Time, nextFireAt: Time, firstSeenAt: Time)

  /** The cron claims so far, latest first; a history that no operation reads. */
  datatype Claims = Since(start: Time) | Then(before: Claims, at: Time, claimed: Status)

  /** An enabled automation. Its executions are keyed by their slot: `scheduled_for` is unique. */
  datatype Automation = Automation(cursor: Time, waiting: Option<Waiting>, executions: map<Time, Status>, claims: Claims)

  predicate AnyLive(s: Automation) {
    exists t :: t in s.executions && Live(s.executions[t])
  }

  // ----- claims -----

  datatype Answer = Sent | Held | Threw

  /** Moves the cursor from `expected` and inserts the execution. A cursor that moved meanwhile loses
      the claim, and a taken slot violates the unique key. */
  function Claim(s: Automation, expected: Time, scheduledFor: Time, next: Time, status: Status): (Automation, Answer) {
    if s.cursor != expected then (s, Held)
    else if scheduledFor in s.executions then (s, Threw)
    else (Automation(next, if s.waiting.Some? && s.waiting.value.scheduledFor == scheduledFor then None else s.waiting,
                     s.executions[scheduledFor := status], Then(s.claims, scheduledFor, status)), Sent)
  }

  /** Keeps the first wait recorded for the slot the cursor is at. */
  function RecordWait(s: Automation, scheduledFor: Time, next: Time, now: Time): Automation {
    if s.cursor != scheduledFor || (s.waiting.Some? && s.waiting.value.scheduledFor == scheduledFor) then s
    else s.(waiting := Some(Waiting(scheduledFor, next, now)))
  }

  /** How the target of an occurrence resolves; an installation pin can fail to be saved before. */
  datatype Target = Resolved | Unresolved | PinLost

  /** One occurrence: skipped, expired or dispatched by a claim, or left waiting. */
  function Dispatch(p: Spec, s: Automation, expected: Time, scheduledFor: Time, next: Time, now: Time, target: Target): (Automation, Answer) {
    if AnyLive(s) && p.concurrency.Wait? then (s, Held)
    else if AnyLive(s) && p.concurrency.SkipOverlap? then Claim(s, expected, scheduledFor, next, Skipped)
    else if target.PinLost? then (s, Held)
    else if target.Resolved? then Claim(s, expected, scheduledFor, next, Dispatching)
    else if p.expiry.Some? && now - expected >= p.expiry.value then Claim(s, expected, scheduledFor, next, Expired)
    else (RecordWait(s, scheduledFor, next, now), Held)
  }

  // ----- due occurrences -----

  /** At most `room` fires after `from`, none later than `now`. */
  function FiresAfter(cron: Cron, from: Time, now: Time, room: nat): seq<Time>
    decreases room
  {
    if room == 0 || cron(from) > now then [] else [cron(from)] + FiresAfter(cron, cron(from), now, room - 1)
  }

  datatype DuePlan = DuePlan(occurrences: seq<Time>, future: Time, overflow: bool)

  function PlanFor(cron: Cron, first: Time, now: Time): DuePlan {
    var occurrences := [first] + FiresAfter(cron, first, now, MAX_MISSED_OCCURRENCES - 1);
    if |occurrences| < MAX_MISSED_OCCURRENCES
    then DuePlan(occurrences, cron(occurrences[|occurrences| - 1]), false)
    else DuePlan(occurrences, cron(now), true)
  }

  predicate Overdue(at: Time, now: Time) { now - at >= MISFIRE_GRACE }

  function Min(a: nat, b: nat): nat { if a < b then a else b }

  function Selected(p: Spec, plan: DuePlan, overdue: bool): seq<Time>
    requires plan.occurrences != []
  {
    if overdue && p.misfire.CatchUp? then plan.occurrences[..Min(p.misfire.maxRuns, |plan.occurrences|)] else plan.occurrences[..1]
  }

  /** Where the cursor goes after the selected occurrence at `index`. */
  function NextOf(p: Spec, plan: DuePlan, overdue: bool, selected: seq<Time>, index: nat): Time
    requires index < |selected|
  {
    if index + 1 < |selected| then selected[index + 1]
    else if |selected| < |plan.occurrences| then plan.occurrences[|selected|]
    else if overdue then plan.future else p.cron(selected[index])
  }

  // ----- one due automation -----

  /** What processing an automation reports: the claims it counted, or the exception it threw. */
  datatype Report = Counted(count: nat) | Exception

  /** The selected occurrences from `index` on, until one is held. */
  function RunSelected(p: Spec, s: Automation, plan: DuePlan, overdue: bool, selected: seq<Time>, index: nat, expected: Time,
                       now: Time, targets: Time -> Target): (Automation, Report)
    requires index <= |selected|
    decreases |selected| - index
  {
    if index == |selected| then (s, Counted(index))
    else
      var next := NextOf(p, plan, overdue, selected, index);
      var (k, answer) := Dispatch(p, s, expected, selected[index], next, now, targets(selected[index]));
      if answer.Threw? then (k, Exception)
      else if answer.Held? then (k, Counted(index))
      else if !p.concurrency.Parallel? then (k, Counted(index + 1))
      else RunSelected(p, k, plan, overdue, selected, index + 1, next, now, targets)
  }

  /** The rest of a catch-up after a waiting occurrence was claimed. */
  function RunRest(p: Spec, s: Automation, count: nat, room: nat, now: Time, targets: Time -> Target): (Automation, Report)
    decreases room
  {
    if room == 0 || s.cursor > now then (s, Counted(count))
    else
      var plan := PlanFor(p.cron, s.cursor, now);
      var next := if |plan.occurrences| > 1 then plan.occurrences[1] else plan.future;
      var (k, answer) := Dispatch(p, s, s.cursor, s.cursor, next, now, targets(s.cursor));
      if answer.Threw? then (k, Exception)
      else if answer.Held? then (k, Counted(count))
      else RunRest(p, k, count + 1, room - 1, now, targets)
  }

  predicate IsWaiting(s: Automation) {
    s.waiting.Some? && s.waiting.value.scheduledFor == s.cursor
  }

  /** Where the cursor goes after a waiting occurrence. */
  function NextAfterWait(p: Spec, s: Automation, now: Time): Time
    requires IsWaiting(s)
  {
    if p.misfire.FireOnce? && s.waiting.value.firstSeenAt - s.cursor >= MISFIRE_GRACE
    then PlanFor(p.cron, s.cursor, now).future else s.waiting.value.nextFireAt
  }

  /** A waiting occurrence whose claim moves the cursor to `next`, and the rest of a catch-up. */
  function ClaimWaiting(p: Spec, s: Automation, next: Time, now: Time, targets: Time -> Target): (Automation, Report) {
    var (k, answer) := Dispatch(p, s, s.cursor, s.cursor, next, now, targets(s.cursor));
    if answer.Threw? then (k, Exception)
    else if answer.Held? then (k, Counted(0))
    else if p.misfire.CatchUp? && p.concurrency.Parallel?
    then RunRest(p, k, 1, if p.misfire.maxRuns == 0 then 0 else p.misfire.maxRuns - 1, now, targets)
    else (k, Counted(1))
  }

  function ProcessWaiting(p: Spec, s: Automation, now: Time, targets: Time -> Target): (Automation, Report)
    requires IsWaiting(s)
  {
    ClaimWaiting(p, s, NextAfterWait(p, s, now), now, targets)
  }

  function ProcessDue(p: Spec, s: Automation, now: Time, targets: Time -> Target): (Automation, Report) {
    if IsWaiting(s) then ProcessWaiting(p, s, now, targets)
    else
      var plan, overdue := PlanFor(p.cron, s.cursor, now), Overdue(s.cursor, now);
      if overdue && p.misfire.SkipMisfire? then
        var (k, answer) := Claim(s, s.cursor, s.cursor, plan.future, Skipped);
        (k, if answer.Threw? then Exception else Counted(1))
      else if overdue && p.misfire.FireOnce? then
        var (k, answer) := Dispatch(p, s, s.cursor, s.cursor, plan.future, now, targets(s.cursor));
        (k, if answer.Threw? then Exception else if answer.Sent? then Counted(1) else Counted(0))
      else
        RunSelected(p, s, plan, overdue, Selected(p, plan, overdue), 0, s.cursor, now, targets)
  }

  /** A tick looks at the automation once its cursor is due. */
  function Tick(p: Spec, s: Automation, now: Time, targets: Time -> Target): (Automation, Report) {
    if s.cursor <= now then ProcessDue(p, s, now, targets) else (s, Counted(0))
  }

  // ----- triggers -----

  function Latest(executions: map<Time, Status>): (r: Option<Time>)
    ensures r.None? <==> executions.Keys == {}
    ensures r.Some? ==> r.value in executions && forall t :: t in executions ==> t <= r.value
    decreases |executions|
  {
    if executions.Keys == {} then None
    else
      LatestExists(executions.Keys);
      var t :| t in executions.Keys && forall u :: u in executions.Keys ==> u <= t;
      Some(t)
  }

  lemma {:induction false} LatestExists(ts: set<Time>)
    requires ts != {}
    ensures exists t :: t in ts && forall u :: u in ts ==> u <= t
    decreases |ts|
  {
    assert (forall t :: t !in ts) ==> ts == {};
    var t :| t in ts;
    var others := ts - {t};
    if others != {} {
      LatestExists(others);
      var v :| v in others && forall u :: u in others ==> u <= v;
      var m := if t < v then v else t;
      assert forall u :: u in ts ==> u == t || u in others;
      assert m in ts && forall u :: u in ts ==> u <= m;
    } else {
      assert ts == {t};
    }
  }

  /** The slot of a trigger execution: when it was received, but past every execution and not the slot
      the cursor is at. */
  function TriggerSlot(s: Automation, receivedAt: Time): Time {
    var latest := Latest(s.executions);
    var slot := if latest.Some? && latest.value + 1 > receivedAt then latest.value + 1 else receivedAt;
    if slot == s.cursor then slot + 1 else slot
  }

  /** A pending invocation: dispatched, skipped or expired in a slot of its own, or left pending. */
  function Trigger(p: Spec, s: Automation, receivedAt: Time, now: Time, target: Target): Automation {
    var slot := TriggerSlot(s, receivedAt);
    if AnyLive(s) && p.concurrency.Wait? then s
    else if AnyLive(s) && p.concurrency.SkipOverlap? then s.(executions := s.executions[slot := Skipped])
    else if target.PinLost? then s
    else if target.Resolved? then s.(executions := s.executions[slot := Dispatching])
    else if p.expiry.None? || now - receivedAt < p.expiry.value then s
    else s.(executions := s.executions[slot := Expired])
  }

  /** An execution starts running or settles. */
  function Progress(s: Automation, at: Time, status: Status): Automation {
    if at in s.executions && Live(s.executions[at]) then s.(executions := s.executions[at := status]) else s
  }

  // ----- runs -----

  datatype Op =
    | TickAt(now: Time, targets: Time -> Target)
    | TriggerAt(receivedAt: Time, now: Time, target: Target)
    | ProgressOf(at: Time, status: Status)

  function Apply(p: Spec, s: Automation, op: Op): Automation {
    match op
    case TickAt(now, targets) => Tick(p, s, now, targets).0
    case TriggerAt(receivedAt, now, target) => Trigger(p, s, receivedAt, now, target)
    case ProgressOf(at, status) => Progress(s, at, status)
  }

  datatype Run = End | Step(op: Op, rest: Run)

  function After(p: Spec, s: Automation, run: Run): Automation
    decreases run
  {
    match run
    case End => s
    case Step(op, rest) => After(p, Apply(p, s, op), rest)
  }

  // ----- due occurrences follow the cron -----

  /** Each occurrence is the cron's successor of the one before. */
  predicate Successors(cron: Cron, ts: seq<Time>) {
    forall i :: 0 < i < |ts| ==> ts[i] == cron(ts[i - 1])
  }

  lemma {:induction false} FiresAfterFollow(cron: Cron, from: Time, now: Time, room: nat)
    ensures var ts := FiresAfter(cron, from, now, room);
      && Successors(cron, [from] + ts) && |ts| <= room
      && (forall i :: 0 <= i < |ts| ==> ts[i] <= now)
      && (|ts| < room ==> cron(([from] + ts)[|ts|]) > now)
    decreases room
  {
    if room != 0 && cron(from) <= now {
      FiresAfterFollow(cron, cron(from), now, room - 1);
      var rest := FiresAfter(cron, cron(from), now, room - 1);
      var ts := FiresAfter(cron, from, now, room);
      assert ts == [cron(from)] + rest;
      forall i | 0 < i < |[from] + ts| ensures ([from] + ts)[i] == cron(([from] + ts)[i - 1]) {
        if i > 1 {
          assert ([from] + ts)[i] == ([cron(from)] + rest)[i - 1] && ([from] + ts)[i - 1] == ([cron(from)] + rest)[i - 2];
        }
      }
      assert ([from] + ts)[|ts|] == ([cron(from)] + rest)[|rest|];
    }
  }

  /** Between a time and its next fire, the next fire is the same. */
  lemma SameNext(cron: Cron, t: Time, u: Time)
    requires LeastAfter(cron) && t <= u < cron(t)
    ensures cron(u) == cron(t)
  {
    assert Fires(cron, cron(t)) && Fires(cron, cron(u)) && NoneBetween(cron, t, cron(t)) && NoneBetween(cron, u, cron(u));
    assert t < cron(u) < cron(t) ==> !Fires(cron, cron(u));
    assert u < cron(t) < cron(u) ==> !Fires(cron, cron(t));
  }

  /** The plan of a due automation: the fires from its cursor up to now, and then the least fire after
      now, whether or not the backlog overflowed. */
  lemma PlanIsDue(cron: Cron, first: Time, now: Time)
    requires LeastAfter(cron) && first <= now
    ensures var plan := PlanFor(cron, first, now);
      && plan.occurrences != [] && plan.occurrences[0] == first
      && Successors(cron, plan.occurrences)
      && (forall i :: 0 <= i < |plan.occurrences| ==> plan.occurrences[i] <= now)
      && plan.future == cron(now)
      && |plan.occurrences| <= 10_000 && (plan.overflow <==> |plan.occurrences| == 10_000)
      && (|plan.occurrences| < MAX_MISSED_OCCURRENCES ==> plan.future == cron(plan.occurrences[|plan.occurrences| - 1]))
  {
    FiresAfterFollow(cron, first, now, MAX_MISSED_OCCURRENCES - 1);
    var plan := PlanFor(cron, first, now);
    var rest := FiresAfter(cron, first, now, MAX_MISSED_OCCURRENCES - 1);
    assert plan.occurrences == [first] + rest;
    if |plan.occurrences| < MAX_MISSED_OCCURRENCES {
      SameNext(cron, plan.occurrences[|rest|], now);
    }
  }

  // ----- what every run keeps -----

  /** The claims rise strictly and stay below the cursor. */
  predicate Rising(claims: Claims, cursor: Time) {
    match claims
    case Since(start) => start == cursor
    case Then(before, at, _) => at < cursor && Rising(before, at)
  }

  /** The claims are consecutive fires, and the cursor is the next one. */
  predicate Consecutive(cron: Cron, claims: Claims, cursor: Time) {
    match claims
    case Since(start) => start == cursor
    case Then(before, at, _) => cursor == cron(at) && Consecutive(cron, before, at)
  }

  /** A cursor move that keeps every run sound: forward to a fire, and under catch-up to the next one. */
  ghost predicate Leads(p: Spec, at: Time, next: Time) {
    at < next && Fires(p.cron, next) && (p.misfire.CatchUp? ==> next == p.cron(at))
  }

  /** A recorded wait leads forward. */
  ghost predicate WaitLeads(p: Spec, s: Automation) {
    s.waiting.Some? ==>
      var wait := s.waiting.value;
      Leads(p, wait.scheduledFor, wait.nextFireAt)
  }

  ghost predicate Sound(p: Spec, s: Automation) {
    && Rising(s.claims, s.cursor)
    && (p.misfire.CatchUp? ==> Consecutive(p.cron, s.claims, s.cursor))
    && WaitLeads(p, s) && Fires(p.cron, s.cursor)
  }

  /** A new automation at its first fire. */
  function New(start: Time): Automation {
    Automation(start, None, map[], Since(start))
  }

  lemma ClaimStaysSound(p: Spec, s: Automation, expected: Time, next: Time, status: Status)
    requires Sound(p, s) && Leads(p, expected, next)
    ensures Sound(p, Claim(s, expected, expected, next, status).0)
  {
  }

  lemma DispatchStaysSound(p: Spec, s: Automation, expected: Time, next: Time, now: Time, target: Target)
    requires Sound(p, s) && Leads(p, expected, next)
    ensures Sound(p, Dispatch(p, s, expected, expected, next, now, target).0)
    ensures Dispatch(p, s, expected, expected, next, now, target).1.Sent? ==> Dispatch(p, s, expected, expected, next, now, target).0.cursor == next
  {
  }

  /** Every cursor move that processing offers leads to the occurrence selected next, and on. */
  lemma NextLeads(p: Spec, plan: DuePlan, overdue: bool, now: Time, first: Time, index: nat)
    requires ValidSpec(p) && first <= now && plan == PlanFor(p.cron, first, now)
    requires plan.occurrences != [] && index < |Selected(p, plan, overdue)|
    ensures var selected := Selected(p, plan, overdue);
      && Leads(p, selected[index], NextOf(p, plan, overdue, selected, index))
      && (index + 1 < |selected| ==> NextOf(p, plan, overdue, selected, index) == selected[index + 1])
  {
    PlanIsDue(p.cron, first, now);
    var selected := Selected(p, plan, overdue);
    assert selected[index] == plan.occurrences[index];
    if index + 1 < |plan.occurrences| {
      assert plan.occurrences[index + 1] == p.cron(plan.occurrences[index]);
    }
    assert Fires(p.cron, p.cron(plan.occurrences[index])) && Fires(p.cron, p.cron(now));
  }

  lemma {:induction false} RunSelectedStaysSound(p: Spec, s: Automation, plan: DuePlan, overdue: bool, index: nat, first: Time,
                                                 now: Time, targets: Time -> Target)
    requires ValidSpec(p) && Sound(p, s) && first <= now && plan == PlanFor(p.cron, first, now) && plan.occurrences != []
    requires index <= |Selected(p, plan, overdue)|
    ensures var selected := Selected(p, plan, overdue);
      index < |selected| ==> Sound(p, RunSelected(p, s, plan, overdue, selected, index, selected[index], now, targets).0)
    decreases |Selected(p, plan, overdue)| - index
  {
    var selected := Selected(p, plan, overdue);
    if index < |selected| {
      var next := NextOf(p, plan, overdue, selected, index);
      var (k, answer) := Dispatch(p, s, selected[index], selected[index], next, now, targets(selected[index]));
      NextLeads(p, plan, overdue, now, first, index);
      DispatchStaysSound(p, s, selected[index], next, now, targets(selected[index]));
      RunSelectedStaysSound(p, k, plan, overdue, index + 1, first, now, targets);
    }
  }

  /** The rest of a catch-up leads on as well. */
  lemma RestLeads(p: Spec, s: Automation, now: Time)
    requires ValidSpec(p) && s.cursor <= now
    ensures var plan := PlanFor(p.cron, s.cursor, now);
      Leads(p, s.cursor, if |plan.occurrences| > 1 then plan.occurrences[1] else plan.future)
  {
    PlanIsDue(p.cron, s.cursor, now);
    var plan := PlanFor(p.cron, s.cursor, now);
    if |plan.occurrences| > 1 { assert plan.occurrences[1] == p.cron(plan.occurrences[0]); }
    assert Fires(p.cron, p.cron(s.cursor)) && Fires(p.cron, p.cron(now));
  }

  lemma NextAfterWaitLeads(p: Spec, s: Automation, now: Time)
    requires ValidSpec(p) && Sound(p, s) && IsWaiting(s) && s.cursor <= now
    ensures Leads(p, s.cursor, NextAfterWait(p, s, now))
  {
    PlanIsDue(p.cron, s.cursor, now);
    assert Fires(p.cron, p.cron(now));
  }

  lemma {:induction false} RunRestStaysSound(p: Spec, s: Automation, count: nat, room: nat, now: Time, targets: Time -> Target)
    requires ValidSpec(p) && Sound(p, s)
    ensures Sound(p, RunRest(p, s, count, room, now, targets).0)
    decreases room
  {
    if room != 0 && s.cursor <= now {
      RestLeads(p, s, now);
      var plan := PlanFor(p.cron, s.cursor, now);
      var next := if |plan.occurrences| > 1 then plan.occurrences[1] else plan.future;
      DispatchStaysSound(p, s, s.cursor, next, now, targets(s.cursor));
      RunRestStaysSound(p, Dispatch(p, s, s.cursor, s.cursor, next, now, targets(s.cursor)).0, count + 1, room - 1, now, targets);
    }
  }

  lemma ProcessWaitingStaysSound(p: Spec, s: Automation, now: Time, targets: Time -> Target)
    requires ValidSpec(p) && Sound(p, s) && IsWaiting(s) && s.cursor <= now
    ensures Sound(p, ProcessWaiting(p, s, now, targets).0)
  {
    var next := NextAfterWait(p, s, now);
    NextAfterWaitLeads(p, s, now);
    DispatchStaysSound(p, s, s.cursor, next, now, targets(s.cursor));
    var k := Dispatch(p, s, s.cursor, s.cursor, next, now, targets(s.cursor)).0;
    if p.misfire.CatchUp? {
      RunRestStaysSound(p, k, 1, p.misfire.maxRuns - 1, now, targets);
    }
  }

  lemma TickStaysSound(p: Spec, s: Automation, now: Time, targets: Time -> Target)
    requires ValidSpec(p) && Sound(p, s)
    ensures Sound(p, Tick(p, s, now, targets).0)
  {
    if s.cursor <= now {
      if IsWaiting(s) {
        ProcessWaitingStaysSound(p, s, now, targets);
      } else {
        var plan, overdue := PlanFor(p.cron, s.cursor, now), Overdue(s.cursor, now);
        PlanIsDue(p.cron, s.cursor, now);
        assert Fires(p.cron, p.cron(now));
        if overdue && !p.misfire.CatchUp? {
          ClaimStaysSound(p, s, s.cursor, plan.future, Skipped);
          DispatchStaysSound(p, s, s.cursor, plan.future, now, targets(s.cursor));
        }
        RunSelectedStaysSound(p, s, plan, overdue, 0, s.cursor, now, targets);
      }
    }
  }

  lemma {:induction false} RunsStaySound(p: Spec, s: Automation, run: Run)
    requires ValidSpec(p) && Sound(p, s)
    ensures Sound(p, After(p, s, run))
    decreases run
  {
    match run
    case End =>
    case Step(op, rest) =>
      if op.TickAt? { TickStaysSound(p, s, op.now, op.targets); }
      RunsStaySound(p, Apply(p, s, op), rest);
  }

  predicate Claimed(claims: Claims, t: Time) {
    claims.Then? && (claims.at == t || Claimed(claims.before, t))
  }

  function StartOf(claims: Claims): Time {
    if claims.Since? then claims.start else StartOf(claims.before)
  }

  /** Consecutive claims leave no fire out. */
  lemma {:induction false} ConsecutiveHasNoGap(cron: Cron, claims: Claims, cursor: Time, t: Time)
    requires LeastAfter(cron) && Consecutive(cron, claims, cursor)
    requires Fires(cron, t) && StartOf(claims) <= t < cursor
    ensures Claimed(claims, t)
    decreases claims
  {
    match claims
    case Since(_) =>
    case Then(before, at, _) =>
      if t < at {
        ConsecutiveHasNoGap(cron, before, at, t);
      } else {
        assert NoneBetween(cron, at, cron(at));
      }
  }

  // ----- how much one tick claims -----

  function Length(claims: Claims): nat {
    if claims.Since? then 0 else 1 + Length(claims.before)
  }

  /** `later` is `earlier` with `n` more claims. */
  predicate Adds(later: Claims, earlier: Claims, n: nat)
    decreases n
  {
    if n == 0 then later == earlier else later.Then? && Adds(later.before, earlier, n - 1)
  }

  lemma {:induction false} AddsTwice(later: Claims, middle: Claims, earlier: Claims, m: nat, n: nat)
    requires Adds(later, middle, m) && Adds(middle, earlier, n)
    ensures Adds(later, earlier, m + n)
    decreases m
  {
    if m != 0 { AddsTwice(later.before, middle, earlier, m - 1, n); }
  }

  lemma {:induction false} AddsKeepsStart(later: Claims, earlier: Claims, n: nat)
    requires Adds(later, earlier, n)
    ensures StartOf(later) == StartOf(earlier)
    decreases n
  {
    if n != 0 { AddsKeepsStart(later.before, earlier, n - 1); }
  }

  /** An operation that reported what it claimed; an exception can follow some claims. */
  ghost predicate Reports(k: Automation, s: Automation, r: Report, already: nat, most: nat) {
    match r
    case Counted(n) => already <= n <= most && Adds(k.claims, s.claims, n - already)
    case Exception => exists n: nat :: already + n < most && Adds(k.claims, s.claims, n)
  }

  lemma ReportsAfterOne(k: Automation, j: Automation, s: Automation, r: Report, already: nat, most: nat)
    requires Adds(j.claims, s.claims, 1) && Reports(k, j, r, already + 1, most)
    ensures Reports(k, s, r, already, most)
  {
    match r
    case Counted(n) => AddsTwice(k.claims, j.claims, s.claims, n - already - 1, 1);
    case Exception =>
      var n: nat :| already + 1 + n < most && Adds(k.claims, j.claims, n);
      AddsTwice(k.claims, j.claims, s.claims, n, 1);
  }

  lemma DispatchAddsOne(p: Spec, s: Automation, expected: Time, next: Time, now: Time, target: Target)
    ensures var (k, answer) := Dispatch(p, s, expected, expected, next, now, target);
      if answer.Sent? then Adds(k.claims, s.claims, 1) else k.claims == s.claims
  {
    var (k, answer) := Dispatch(p, s, expected, expected, next, now, target);
    if answer.Sent? { assert Adds(k.claims.before, s.claims, 0); }
  }

  lemma NothingAdded(k: Automation, s: Automation, already: nat, most: nat)
    requires k.claims == s.claims && already < most
    ensures Reports(k, s, Exception, already, most)
  {
    assert Adds(k.claims, s.claims, 0);
  }

  lemma {:induction false} RunSelectedReports(p: Spec, s: Automation, plan: DuePlan, overdue: bool, selected: seq<Time>, index: nat, expected: Time,
                                              now: Time, targets: Time -> Target)
    requires index <= |selected| && (index < |selected| ==> expected == selected[index])
    requires forall i :: 0 <= i && i + 1 < |selected| ==> NextOf(p, plan, overdue, selected, i) == selected[i + 1]
    ensures var (k, r) := RunSelected(p, s, plan, overdue, selected, index, expected, now, targets);
      Reports(k, s, r, index, |selected|)
    decreases |selected| - index
  {
    if index < |selected| {
      var next := NextOf(p, plan, overdue, selected, index);
      var (j, answer) := Dispatch(p, s, expected, selected[index], next, now, targets(selected[index]));
      DispatchAddsOne(p, s, expected, next, now, targets(selected[index]));
      if answer.Threw? {
        NothingAdded(j, s, index, |selected|);
      } else if answer.Sent? && p.concurrency.Parallel? {
        RunSelectedReports(p, j, plan, overdue, selected, index + 1, next, now, targets);
        var (k, r) := RunSelected(p, j, plan, overdue, selected, index + 1, next, now, targets);
        ReportsAfterOne(k, j, s, r, index, |selected|);
      }
    }
  }

  lemma {:induction false} RunRestReports(p: Spec, s: Automation, count: nat, room: nat, now: Time, targets: Time -> Target)
    ensures var (k, r) := RunRest(p, s, count, room, now, targets); Reports(k, s, r, count, count + room)
    decreases room
  {
    if room != 0 && s.cursor <= now {
      var plan := PlanFor(p.cron, s.cursor, now);
      var next := if |plan.occurrences| > 1 then plan.occurrences[1] else plan.future;
      var (j, answer) := Dispatch(p, s, s.cursor, s.cursor, next, now, targets(s.cursor));
      DispatchAddsOne(p, s, s.cursor, next, now, targets(s.cursor));
      if answer.Threw? {
        NothingAdded(j, s, count, count + room);
      } else if answer.Sent? {
        RunRestReports(p, j, count + 1, room - 1, now, targets);
        var (k, r) := RunRest(p, j, count + 1, room - 1, now, targets);
        ReportsAfterOne(k, j, s, r, count, count + room);
      }
    }
  }

  function MostPerTick(p: Spec): nat {
    if p.misfire.CatchUp? && p.concurrency.Parallel? then p.misfire.maxRuns else 1
  }

  lemma ClaimWaitingReports(p: Spec, s: Automation, next: Time, now: Time, targets: Time -> Target)
    requires ValidSpec(p)
    ensures var (k, r) := ClaimWaiting(p, s, next, now, targets); Reports(k, s, r, 0, MostPerTick(p))
  {
    var (j, answer) := Dispatch(p, s, s.cursor, s.cursor, next, now, targets(s.cursor));
    DispatchAddsOne(p, s, s.cursor, next, now, targets(s.cursor));
    if answer.Threw? {
      NothingAdded(j, s, 0, MostPerTick(p));
    } else if answer.Sent? && p.misfire.CatchUp? && p.concurrency.Parallel? {
      RestReports(p, s, j, now, targets);
    }
  }

  lemma RestReports(p: Spec, s: Automation, j: Automation, now: Time, targets: Time -> Target)
    requires p.misfire.CatchUp? && 1 <= p.misfire.maxRuns && Adds(j.claims, s.claims, 1)
    ensures var (k, r) := RunRest(p, j, 1, p.misfire.maxRuns - 1, now, targets); Reports(k, s, r, 0, p.misfire.maxRuns)
  {
    RunRestReports(p, j, 1, p.misfire.maxRuns - 1, now, targets);
    var (k, r) := RunRest(p, j, 1, p.misfire.maxRuns - 1, now, targets);
    ReportsAfterOne(k, j, s, r, 0, p.misfire.maxRuns);
  }

  /** A tick claims what it counts: at most `maxRuns` occurrences of a parallel catch-up, and at most
      one otherwise. */
  lemma TickReports(p: Spec, s: Automation, now: Time, targets: Time -> Target)
    requires ValidSpec(p)
    ensures var (k, r) := Tick(p, s, now, targets); Reports(k, s, r, 0, MostPerTick(p))
  {
    if s.cursor > now {
    } else if IsWaiting(s) {
      ClaimWaitingReports(p, s, NextAfterWait(p, s, now), now, targets);
    } else {
      var plan, overdue := PlanFor(p.cron, s.cursor, now), Overdue(s.cursor, now);
      PlanIsDue(p.cron, s.cursor, now);
      if overdue && !p.misfire.CatchUp? {
        DispatchAddsOne(p, s, s.cursor, plan.future, now, targets(s.cursor));
        var (k, answer) := Claim(s, s.cursor, s.cursor, plan.future, Skipped);
        assert answer.Sent? ==> Adds(k.claims.before, s.claims, 0);
        NothingAdded(s, s, 0, 1);
      } else {
        SelectedReports(p, s, plan, overdue, now, targets);
      }
    }
  }

  lemma SelectedReports(p: Spec, s: Automation, plan: DuePlan, overdue: bool, now: Time, targets: Time -> Target)
    requires ValidSpec(p) && s.cursor <= now && plan == PlanFor(p.cron, s.cursor, now) && plan.occurrences != []
    ensures var (k, r) := RunSelected(p, s, plan, overdue, Selected(p, plan, overdue), 0, s.cursor, now, targets);
      Reports(k, s, r, 0, MostPerTick(p))
  {
    PlanIsDue(p.cron, s.cursor, now);
    var selected := Selected(p, plan, overdue);
    if p.concurrency.Parallel? {
      RunSelectedReports(p, s, plan, overdue, selected, 0, s.cursor, now, targets);
      Looser(RunSelected(p, s, plan, overdue, selected, 0, s.cursor, now, targets).0, s,
             RunSelected(p, s, plan, overdue, selected, 0, s.cursor, now, targets).1, |selected|, MostPerTick(p));
    } else {
      OneReports(p, s, plan, overdue, selected, now, targets);
    }
  }

  /** One selected occurrence at most, where executions do not run in parallel. */
  lemma OneReports(p: Spec, s: Automation, plan: DuePlan, overdue: bool, selected: seq<Time>, now: Time, targets: Time -> Target)
    requires !p.concurrency.Parallel? && selected != [] && selected[0] == s.cursor
    ensures var (k, r) := RunSelected(p, s, plan, overdue, selected, 0, s.cursor, now, targets); Reports(k, s, r, 0, 1)
  {
    var next := NextOf(p, plan, overdue, selected, 0);
    var (j, answer) := Dispatch(p, s, s.cursor, s.cursor, next, now, targets(s.cursor));
    DispatchAddsOne(p, s, s.cursor, next, now, targets(s.cursor));
    if answer.Threw? { NothingAdded(j, s, 0, 1); }
  }

  lemma Looser(k: Automation, s: Automation, r: Report, least: nat, most: nat)
    requires Reports(k, s, r, 0, least) && least <= most
    ensures Reports(k, s, r, 0, most)
  {
    if r.Exception? {
      var n: nat :| n < least && Adds(k.claims, s.claims, n);
      assert 0 + n < most && Adds(k.claims, s.claims, n);
    }
  }

  lemma {:induction false} RunsKeepStart(p: Spec, s: Automation, run: Run)
    requires ValidSpec(p)
    ensures StartOf(After(p, s, run).claims) == StartOf(s.claims)
    decreases run
  {
    match run
    case End =>
    case Step(op, rest) =>
      if op.TickAt? {
        TickReports(p, s, op.now, op.targets);
        var (k, r) := Tick(p, s, op.now, op.targets);
        var n :| Adds(k.claims, s.claims, n);
        AddsKeepsStart(k.claims, s.claims, n);
      }
      RunsKeepStart(p, Apply(p, s, op), rest);
  }

  /** Catch-up leaves no gap: after every run of ticks, triggers and settlements, whatever waited,
      expired, was skipped or overflowed, the claimed occurrences rise strictly and are exactly the
      fires from the first one up to the cursor. */
  lemma CatchUpHasNoGap(p: Spec, start: Time, run: Run, t: Time)
    requires ValidSpec(p) && p.misfire.CatchUp? && Fires(p.cron, start)
    ensures var s := After(p, New(start), run);
      && Rising(s.claims, s.cursor) && StartOf(s.claims) == start
      && (Claimed(s.claims, t) <==> Fires(p.cron, t) && start <= t < s.cursor)
  {
    var s := After(p, New(start), run);
    RunsStaySound(p, New(start), run);
    RunsKeepStart(p, New(start), run);
    if Claimed(s.claims, t) {
      ClaimedIsFire(p.cron, s.claims, s.cursor, t);
    }
    if Fires(p.cron, t) && start <= t < s.cursor {
      ConsecutiveHasNoGap(p.cron, s.claims, s.cursor, t);
    }
  }

  lemma {:induction false} ClaimedIsFire(cron: Cron, claims: Claims, cursor: Time, t: Time)
    requires LeastAfter(cron) && Consecutive(cron, claims, cursor) && Rising(claims, cursor)
    requires Fires(cron, StartOf(claims)) && Claimed(claims, t)
    ensures Fires(cron, t) && StartOf(claims) <= t < cursor
    decreases claims
  {
    LatestIsFire(cron, claims.before, claims.at);
    if claims.at != t {
      ClaimedIsFire(cron, claims.before, claims.at, t);
    } else {
      StartIsLeast(claims.before, claims.at);
    }
  }

  lemma LatestIsFire(cron: Cron, claims: Claims, cursor: Time)
    requires LeastAfter(cron) && Consecutive(cron, claims, cursor) && Fires(cron, StartOf(claims))
    ensures Fires(cron, cursor)
  {
    if claims.Then? { assert cursor == cron(claims.at); }
  }

  lemma {:induction false} StartIsLeast(claims: Claims, cursor: Time)
    requires Rising(claims, cursor)
    ensures StartOf(claims) <= cursor
    decreases claims
  {
    if claims.Then? { StartIsLeast(claims.before, claims.at); }
  }

  // ----- one live execution -----

  ghost predicate AtMostOneLive(s: Automation) {
    forall t, u :: t in s.executions && u in s.executions && Live(s.executions[t]) && Live(s.executions[u]) ==> t == u
  }

  lemma DispatchKeepsOneLive(p: Spec, s: Automation, expected: Time, next: Time, now: Time, target: Target)
    requires !p.concurrency.Parallel? && AtMostOneLive(s)
    ensures AtMostOneLive(Dispatch(p, s, expected, expected, next, now, target).0)
  {
  }

  lemma TickKeepsOneLive(p: Spec, s: Automation, now: Time, targets: Time -> Target)
    requires !p.concurrency.Parallel? && AtMostOneLive(s)
    ensures AtMostOneLive(Tick(p, s, now, targets).0)
  {
    if s.cursor <= now {
      var plan, overdue := PlanFor(p.cron, s.cursor, now), Overdue(s.cursor, now);
      if IsWaiting(s) {
        DispatchKeepsOneLive(p, s, s.cursor, NextAfterWait(p, s, now), now, targets(s.cursor));
      } else {
        var selected := Selected(p, plan, overdue);
        DispatchKeepsOneLive(p, s, s.cursor, plan.future, now, targets(s.cursor));
        if selected != [] {
          assert selected[0] == s.cursor;
          DispatchKeepsOneLive(p, s, s.cursor, NextOf(p, plan, overdue, selected, 0), now, targets(s.cursor));
        }
      }
    }
  }

  /** Exclusive execution: under a `wait` or `skip` policy no run of ticks, triggers and settlements
      ever has two executions of the automation dispatching or running. */
  lemma {:induction false} ExclusiveExecution(p: Spec, s: Automation, run: Run)
    requires !p.concurrency.Parallel? && AtMostOneLive(s)
    ensures AtMostOneLive(After(p, s, run))
    decreases run
  {
    match run
    case End =>
    case Step(op, rest) =>
      if op.TickAt? { TickKeepsOneLive(p, s, op.now, op.targets); }
      ExclusiveExecution(p, Apply(p, s, op), rest);
  }

  // ----- slots that triggers take -----

  /** No execution holds a slot that the cursor is at or will come to. */
  ghost predicate Clear(p: Spec, s: Automation) {
    forall t :: t in s.executions && s.cursor <= t ==> !Fires(p.cron, t)
  }

  /** A trigger's slot is never taken, so the search past it that follows never moves it. */
  lemma TriggerSlotIsFree(s: Automation, receivedAt: Time)
    ensures TriggerSlot(s, receivedAt) !in s.executions && TriggerSlot(s, receivedAt) != s.cursor
    ensures receivedAt <= TriggerSlot(s, receivedAt)
  {
    var latest := Latest(s.executions);
    assert latest.None? ==> s.executions.Keys == {};
  }

  /** An invocation stays pending: it waits for a live execution, its installation pin could not be
      saved, or its target is unresolved and it has not expired. */
  predicate StaysPending(p: Spec, s: Automation, receivedAt: Time, now: Time, target: Target) {
    if AnyLive(s) && !p.concurrency.Parallel? then p.concurrency.Wait?
    else target.PinLost? || (target.Unresolved? && (p.expiry.None? || now - receivedAt < p.expiry.value))
  }

  /** A trigger that leaves the schedule alone. */
  ghost predicate Harmless(p: Spec, s: Automation, receivedAt: Time, now: Time, target: Target) {
    var slot := TriggerSlot(s, receivedAt);
    StaysPending(p, s, receivedAt, now, target) || slot < s.cursor || !Fires(p.cron, slot)
  }

  /** Exactly when a trigger takes no slot of the schedule: it stays pending, or its slot is before the
      cursor or no fire. */
  lemma TriggerClearsExactly(p: Spec, s: Automation, receivedAt: Time, now: Time, target: Target)
    requires Clear(p, s)
    ensures Clear(p, Trigger(p, s, receivedAt, now, target)) <==> Harmless(p, s, receivedAt, now, target)
  {
    var k, slot := Trigger(p, s, receivedAt, now, target), TriggerSlot(s, receivedAt);
    TriggerSlotIsFree(s, receivedAt);
    if k != s {
      assert slot in k.executions && k.cursor == s.cursor;
      assert forall t :: t in k.executions <==> t in s.executions || t == slot;
    }
  }

  /** A claim at a clear cursor succeeds or is held, and stays clear. */
  lemma DispatchStaysClear(p: Spec, s: Automation, expected: Time, next: Time, now: Time, target: Target)
    requires Clear(p, s) && Fires(p.cron, s.cursor) && s.cursor < next && expected == s.cursor
    ensures Clear(p, Dispatch(p, s, expected, expected, next, now, target).0)
    ensures !Dispatch(p, s, expected, expected, next, now, target).1.Threw?
    ensures Claim(s, expected, expected, next, Skipped).1.Sent? && Clear(p, Claim(s, expected, expected, next, Skipped).0)
  {
  }

  lemma {:induction false} RunSelectedStaysClear(p: Spec, s: Automation, plan: DuePlan, overdue: bool, index: nat, first: Time,
                                                 now: Time, targets: Time -> Target)
    requires ValidSpec(p) && Sound(p, s) && Clear(p, s) && first <= now && plan == PlanFor(p.cron, first, now) && plan.occurrences != []
    requires index <= |Selected(p, plan, overdue)| && (index < |Selected(p, plan, overdue)| ==> s.cursor == Selected(p, plan, overdue)[index])
    ensures var (k, r) := RunSelected(p, s, plan, overdue, Selected(p, plan, overdue), index, s.cursor, now, targets);
      Clear(p, k) && r.Counted?
    decreases |Selected(p, plan, overdue)| - index
  {
    var selected := Selected(p, plan, overdue);
    if index < |selected| {
      var next := NextOf(p, plan, overdue, selected, index);
      var (k, answer) := Dispatch(p, s, s.cursor, selected[index], next, now, targets(selected[index]));
      NextLeads(p, plan, overdue, now, first, index);
      DispatchStaysSound(p, s, s.cursor, next, now, targets(selected[index]));
      DispatchStaysClear(p, s, s.cursor, next, now, targets(selected[index]));
      if answer.Sent? && p.concurrency.Parallel? {
        RunSelectedStaysClear(p, k, plan, overdue, index + 1, first, now, targets);
      }
    }
  }

  lemma OneStaysClear(p: Spec, s: Automation, next: Time, now: Time, target: Target)
    requires Sound(p, s) && Clear(p, s) && Leads(p, s.cursor, next)
    ensures var (k, answer) := Dispatch(p, s, s.cursor, s.cursor, next, now, target); Sound(p, k) && Clear(p, k) && !answer.Threw?
  {
    DispatchStaysSound(p, s, s.cursor, next, now, target);
    DispatchStaysClear(p, s, s.cursor, next, now, target);
  }

  lemma {:induction false} RunRestStaysClear(p: Spec, s: Automation, count: nat, room: nat, now: Time, targets: Time -> Target)
    requires ValidSpec(p) && Sound(p, s) && Clear(p, s)
    ensures var (k, r) := RunRest(p, s, count, room, now, targets); Clear(p, k) && r.Counted?
    decreases room
  {
    if room != 0 && s.cursor <= now {
      RestLeads(p, s, now);
      var plan := PlanFor(p.cron, s.cursor, now);
      var next := if |plan.occurrences| > 1 then plan.occurrences[1] else plan.future;
      OneStaysClear(p, s, next, now, targets(s.cursor));
      RunRestStaysClear(p, Dispatch(p, s, s.cursor, s.cursor, next, now, targets(s.cursor)).0, count + 1, room - 1, now, targets);
    }
  }

  /** A schedule whose slots are clear never throws, and ticks keep them clear. */
  lemma TickStaysClear(p: Spec, s: Automation, now: Time, targets: Time -> Target)
    requires ValidSpec(p) && Sound(p, s) && Clear(p, s)
    ensures var (k, r) := Tick(p, s, now, targets); Clear(p, k) && r.Counted?
  {
    if s.cursor > now {
    } else if IsWaiting(s) {
      NextAfterWaitLeads(p, s, now);
      WaitingStaysClear(p, s, NextAfterWait(p, s, now), now, targets);
    } else {
      var plan, overdue := PlanFor(p.cron, s.cursor, now), Overdue(s.cursor, now);
      PlanIsDue(p.cron, s.cursor, now);
      if overdue && !p.misfire.CatchUp? {
        DispatchStaysClear(p, s, s.cursor, plan.future, now, targets(s.cursor));
      } else {
        RunSelectedStaysClear(p, s, plan, overdue, 0, s.cursor, now, targets);
      }
    }
  }

  lemma WaitingStaysClear(p: Spec, s: Automation, next: Time, now: Time, targets: Time -> Target)
    requires ValidSpec(p) && Sound(p, s) && Clear(p, s) && Leads(p, s.cursor, next)
    ensures var (k, r) := ClaimWaiting(p, s, next, now, targets); Clear(p, k) && r.Counted?
  {
    OneStaysClear(p, s, next, now, targets(s.cursor));
    WaitedStaysClear(p, Dispatch(p, s, s.cursor, s.cursor, next, now, targets(s.cursor)).0, now, targets);
  }

  lemma WaitedStaysClear(p: Spec, k: Automation, now: Time, targets: Time -> Target)
    requires ValidSpec(p) && Sound(p, k) && Clear(p, k)
    ensures p.misfire.CatchUp? ==> var (j, r) := RunRest(p, k, 1, p.misfire.maxRuns - 1, now, targets); Clear(p, j) && r.Counted?
  {
    if p.misfire.CatchUp? { RunRestStaysClear(p, k, 1, p.misfire.maxRuns - 1, now, targets); }
  }

  /** Every trigger of the run is harmless where it happens. */
  ghost predicate HarmlessRun(p: Spec, s: Automation, run: Run)
    decreases run
  {
    match run
    case End => true
    case Step(op, rest) =>
      (op.TriggerAt? ==> Harmless(p, s, op.receivedAt, op.now, op.target)) && HarmlessRun(p, Apply(p, s, op), rest)
  }

  predicate NeverThrows(p: Spec, s: Automation, run: Run)
    decreases run
  {
    match run
    case End => true
    case Step(op, rest) =>
      (op.TickAt? ==> Tick(p, s, op.now, op.targets).1.Counted?) && NeverThrows(p, Apply(p, s, op), rest)
  }

  lemma {:induction false} ClearRunsNeverThrow(p: Spec, s: Automation, run: Run)
    requires ValidSpec(p) && Sound(p, s) && Clear(p, s) && HarmlessRun(p, s, run)
    ensures NeverThrows(p, s, run) && Clear(p, After(p, s, run))
    decreases run
  {
    match run
    case End =>
    case Step(op, rest) =>
      match op {
        case TickAt(now, targets) =>
          TickStaysSound(p, s, now, targets);
          TickStaysClear(p, s, now, targets);
        case TriggerAt(receivedAt, now, target) => TriggerClearsExactly(p, s, receivedAt, now, target);
        case ProgressOf(_, _) =>
      }
      ClearRunsNeverThrow(p, Apply(p, s, op), rest);
  }

  /** While every trigger is harmless, no tick ever throws. */
  lemma HarmlessRunsNeverThrow(p: Spec, start: Time, run: Run)
    requires ValidSpec(p) && Fires(p.cron, start) && HarmlessRun(p, New(start), run)
    ensures NeverThrows(p, New(start), run)
  {
    ClearRunsNeverThrow(p, New(start), run);
  }

  // ----- a taken slot stops the schedule -----

  /** An execution holds the slot `t`, and it is no claim of the schedule. */
  predicate Barred(s: Automation, t: Time) {
    t in s.executions && !Claimed(s.claims, t) && StartOf(s.claims) <= t
  }

  lemma DispatchStaysBarred(p: Spec, s: Automation, expected: Time, next: Time, now: Time, target: Target, t: Time)
    requires Barred(s, t)
    ensures Barred(Dispatch(p, s, expected, expected, next, now, target).0, t)
  {
  }

  lemma {:induction false} RunSelectedStaysBarred(p: Spec, s: Automation, plan: DuePlan, overdue: bool, selected: seq<Time>, index: nat, expected: Time,
                                                  now: Time, targets: Time -> Target, t: Time)
    requires Barred(s, t) && index <= |selected| && (index < |selected| ==> expected == selected[index])
    requires forall i :: 0 <= i && i + 1 < |selected| ==> NextOf(p, plan, overdue, selected, i) == selected[i + 1]
    ensures Barred(RunSelected(p, s, plan, overdue, selected, index, expected, now, targets).0, t)
    decreases |selected| - index
  {
    if index < |selected| {
      var next := NextOf(p, plan, overdue, selected, index);
      DispatchStaysBarred(p, s, expected, next, now, targets(selected[index]), t);
      RunSelectedStaysBarred(p, Dispatch(p, s, expected, selected[index], next, now, targets(selected[index])).0, plan, overdue, selected,
                             index + 1, next, now, targets, t);
    }
  }

  lemma {:induction false} RunRestStaysBarred(p: Spec, s: Automation, count: nat, room: nat, now: Time, targets: Time -> Target, t: Time)
    requires Barred(s, t)
    ensures Barred(RunRest(p, s, count, room, now, targets).0, t)
    decreases room
  {
    if room != 0 && s.cursor <= now {
      var plan := PlanFor(p.cron, s.cursor, now);
      var next := if |plan.occurrences| > 1 then plan.occurrences[1] else plan.future;
      DispatchStaysBarred(p, s, s.cursor, next, now, targets(s.cursor), t);
      RunRestStaysBarred(p, Dispatch(p, s, s.cursor, s.cursor, next, now, targets(s.cursor)).0, count + 1, room - 1, now, targets, t);
    }
  }

  lemma TickStaysBarred(p: Spec, s: Automation, now: Time, targets: Time -> Target, t: Time)
    requires ValidSpec(p) && p.misfire.CatchUp? && Barred(s, t)
    ensures Barred(Tick(p, s, now, targets).0, t)
  {
    if s.cursor <= now {
      if IsWaiting(s) {
        var next := NextAfterWait(p, s, now);
        DispatchStaysBarred(p, s, s.cursor, next, now, targets(s.cursor), t);
        RunRestStaysBarred(p, Dispatch(p, s, s.cursor, s.cursor, next, now, targets(s.cursor)).0, 1, p.misfire.maxRuns - 1, now, targets, t);
      } else {
        var plan, overdue := PlanFor(p.cron, s.cursor, now), Overdue(s.cursor, now);
        PlanIsDue(p.cron, s.cursor, now);
        var selected := Selected(p, plan, overdue);
        assert selected[0] == s.cursor;
        RunSelectedStaysBarred(p, s, plan, overdue, selected, 0, s.cursor, now, targets, t);
      }
    }
  }

  lemma {:induction false} RunsStayBarred(p: Spec, s: Automation, run: Run, t: Time)
    requires ValidSpec(p) && p.misfire.CatchUp? && Barred(s, t)
    ensures Barred(After(p, s, run), t)
    decreases run
  {
    match run
    case End =>
    case Step(op, rest) =>
      if op.TickAt? { TickStaysBarred(p, s, op.now, op.targets, t); }
      RunsStayBarred(p, Apply(p, s, op), rest, t);
  }

  lemma {:induction false} RisingBounds(claims: Claims, cursor: Time, t: Time)
    requires Rising(claims, cursor) && cursor <= t
    ensures !Claimed(claims, t) && StartOf(claims) <= t
    decreases claims
  {
    if claims.Then? { RisingBounds(claims.before, claims.at, t); }
  }

  /** Under catch-up a fire at or past the cursor whose slot is taken is never passed: whatever runs
      later, the cursor stays at or before it. */
  lemma TakenFireIsNeverPassed(p: Spec, s: Automation, run: Run, t: Time)
    requires ValidSpec(p) && p.misfire.CatchUp? && Sound(p, s)
    requires t in s.executions && Fires(p.cron, t) && s.cursor <= t
    ensures After(p, s, run).cursor <= t
  {
    RisingBounds(s.claims, s.cursor, t);
    RunsStayBarred(p, s, run, t);
    RunsStaySound(p, s, run);
    var k := After(p, s, run);
    if t < k.cursor { ConsecutiveHasNoGap(p.cron, k.claims, k.cursor, t); }
  }


  /** So under catch-up a trigger that is not harmless is final: nothing that runs later moves the cursor
      past the slot it took. */
  lemma HarmfulTriggerStopsSchedule(p: Spec, s: Automation, receivedAt: Time, now: Time, target: Target, run: Run)
    requires ValidSpec(p) && p.misfire.CatchUp? && Sound(p, s) && !Harmless(p, s, receivedAt, now, target)
    ensures After(p, s, Step(TriggerAt(receivedAt, now, target), run)).cursor <= TriggerSlot(s, receivedAt)
  {
    TakenFireIsNeverPassed(p, Trigger(p, s, receivedAt, now, target), run, TriggerSlot(s, receivedAt));
  }

  lemma TakenSlotHolds(p: Spec, s: Automation, now: Time, targets: Time -> Target)
    requires s.cursor in s.executions
    ensures var k := Tick(p, s, now, targets).0;
      k.cursor == s.cursor && k.executions == s.executions && k.claims == s.claims
  {
    if s.cursor <= now && !IsWaiting(s) {
      var plan, overdue := PlanFor(p.cron, s.cursor, now), Overdue(s.cursor, now);
      var selected := Selected(p, plan, overdue);
      if selected != [] { assert selected[0] == s.cursor; }
    }
  }

  /** Once an execution holds the slot the cursor is at, no run moves the cursor or claims anything. */
  lemma {:induction false} TakenSlotStopsSchedule(p: Spec, s: Automation, run: Run)
    requires s.cursor in s.executions
    ensures After(p, s, run).cursor == s.cursor && After(p, s, run).claims == s.claims
    decreases run
  {
    match run
    case End =>
    case Step(op, rest) =>
      if op.TickAt? { TakenSlotHolds(p, s, op.now, op.targets); }
      TakenSlotStopsSchedule(p, Apply(p, s, op), rest);
  }

  const ALWAYS: Time -> Target := t => Resolved

  /** A trigger that was received at the second fire `b`, before the first one `a` was claimed. */
  function Stolen(a: Time, b: Time): Automation {
    Automation(a, None, map[b := Dispatching], Since(a))
  }

  lemma TriggerTakesLaterFire(p: Spec, a: Time, b: Time)
    requires a < b
    ensures Trigger(p, New(a), b, b, Resolved) == Stolen(a, b)
  {
    assert New(a).executions.Keys == {};
  }

  lemma TwoDue(cron: Cron, a: Time)
    requires LeastAfter(cron)
    ensures PlanFor(cron, a, cron(a)).occurrences == [a, cron(a)]
  {
    var b := cron(a);
    assert b < cron(b);
    assert FiresAfter(cron, b, b, MAX_MISSED_OCCURRENCES - 2) == [];
    assert FiresAfter(cron, a, b, MAX_MISSED_OCCURRENCES - 1) == [b];
  }

  /** The catch-up claims the first occurrence and throws at the second. */
  lemma CatchUpThrows(p: Spec, a: Time)
    requires ValidSpec(p) && p.misfire.CatchUp? && 2 <= p.misfire.maxRuns && p.concurrency.Parallel?
    requires p.cron(a) - a >= MISFIRE_GRACE
    ensures var b := p.cron(a);
      Tick(p, Stolen(a, b), b, ALWAYS) == (Automation(b, None, map[b := Dispatching, a := Dispatching], Then(Since(a), a, Dispatching)), Exception)
  {
    var b := p.cron(a);
    var plan := PlanFor(p.cron, a, b);
    TwoDue(p.cron, a);
    var selected := Selected(p, plan, true);
    assert selected == [a, b];
    var k := Automation(b, None, Stolen(a, b).executions[a := Dispatching], Then(Since(a), a, Dispatching));
    assert Dispatch(p, Stolen(a, b), a, a, b, b, Resolved) == (k, Sent);
    assert RunSelected(p, k, plan, true, selected, 1, b, b, ALWAYS) == (k, Exception);
    assert k.executions == map[b := Dispatching, a := Dispatching];
  }

  /** It happens to every parallel catch-up schedule of more than one run: a trigger received at a
      fire whose predecessor is still to be claimed takes that fire's slot. The catch-up that follows
      throws there, and whatever runs later, that occurrence is never claimed. */
  lemma TriggerStopsSchedule(p: Spec, a: Time, run: Run)
    requires ValidSpec(p) && p.misfire.CatchUp? && 2 <= p.misfire.maxRuns && p.concurrency.Parallel?
    requires p.cron(a) - a >= MISFIRE_GRACE
    ensures var b := p.cron(a);
      var s := After(p, New(a), Step(TriggerAt(b, b, Resolved), Step(TickAt(b, ALWAYS), run)));
      s.cursor == b && s.claims == Then(Since(a), a, Dispatching)
  {
    var b := p.cron(a);
    TriggerTakesLaterFire(p, a, b);
    CatchUpThrows(p, a);
    TakenSlotStopsSchedule(p, Tick(p, Stolen(a, b), b, ALWAYS).0, run);
    assert After(p, Stolen(a, b), Step(TickAt(b, ALWAYS), run)) == After(p, Tick(p, Stolen(a, b), b, ALWAYS).0, run);
  }

  // ----- what a tick leaves behind -----

  /** An overdue automation that skips its misfires claims one occurrence as skipped, runs none, and
      passes the whole backlog: its cursor is the next fire after now. */
  lemma SkipPassesBacklog(p: Spec, s: Automation, now: Time, targets: Time -> Target)
    requires ValidSpec(p) && p.misfire.SkipMisfire? && Overdue(s.cursor, now) && !IsWaiting(s) && s.cursor !in s.executions
    ensures var (k, r) := Tick(p, s, now, targets);
      k.cursor == p.cron(now) && k.executions == s.executions[s.cursor := Skipped] && r == Counted(1)
  {
    PlanIsDue(p.cron, s.cursor, now);
  }

  /** An overdue automation that fires once dispatches one occurrence for the whole backlog. */
  lemma FireOncePassesBacklog(p: Spec, s: Automation, now: Time, targets: Time -> Target)
    requires ValidSpec(p) && p.misfire.FireOnce? && Overdue(s.cursor, now) && !IsWaiting(s) && s.cursor !in s.executions
    requires !AnyLive(s) && targets(s.cursor).Resolved?
    ensures var (k, r) := Tick(p, s, now, targets);
      k.cursor == p.cron(now) && k.executions == s.executions[s.cursor := Dispatching] && r == Counted(1)
  {
    PlanIsDue(p.cron, s.cursor, now);
  }

  /** Every one of `ts` dispatched, on top of what there was. */
  function WithDispatched(executions: map<Time, Status>, ts: seq<Time>): map<Time, Status>
    decreases |ts|
  {
    if ts == [] then executions else WithDispatched(executions[ts[0] := Dispatching], ts[1..])
  }

  lemma {:induction false} AllDispatched(p: Spec, s: Automation, plan: DuePlan, index: nat, first: Time, now: Time, targets: Time -> Target)
    requires ValidSpec(p) && p.misfire.CatchUp? && p.concurrency.Parallel? && Sound(p, s) && Clear(p, s)
    requires first <= now && plan == PlanFor(p.cron, first, now) && plan.occurrences != []
    requires forall t :: targets(t).Resolved?
    requires index <= |Selected(p, plan, true)| && (index < |Selected(p, plan, true)| ==> s.cursor == Selected(p, plan, true)[index])
    ensures var selected := Selected(p, plan, true);
      var (k, r) := RunSelected(p, s, plan, true, selected, index, s.cursor, now, targets);
      r == Counted(|selected|) && k.executions == WithDispatched(s.executions, selected[index..])
    decreases |Selected(p, plan, true)| - index
  {
    var selected := Selected(p, plan, true);
    if index < |selected| {
      var next := NextOf(p, plan, true, selected, index);
      var (k, answer) := Dispatch(p, s, s.cursor, selected[index], next, now, targets(selected[index]));
      NextLeads(p, plan, true, now, first, index);
      DispatchStaysSound(p, s, s.cursor, next, now, targets(selected[index]));
      DispatchStaysClear(p, s, s.cursor, next, now, targets(selected[index]));
      AllDispatched(p, k, plan, index + 1, first, now, targets);
      assert selected[index..][1..] == selected[index + 1..];
    }
  }

  /** A parallel catch-up whose targets resolve dispatches exactly its oldest due occurrences: all of
      them, or `maxRuns` when there are more. */
  lemma CatchUpDispatchesOldest(p: Spec, s: Automation, now: Time, targets: Time -> Target)
    requires ValidSpec(p) && p.misfire.CatchUp? && p.concurrency.Parallel? && Sound(p, s) && Clear(p, s)
    requires Overdue(s.cursor, now) && !IsWaiting(s) && forall t :: targets(t).Resolved?
    ensures var due := PlanFor(p.cron, s.cursor, now).occurrences;
      var n := Min(p.misfire.maxRuns, |due|);
      var (k, r) := Tick(p, s, now, targets);
      r == Counted(n) && k.executions == WithDispatched(s.executions, due[..n])
  {
    PlanIsDue(p.cron, s.cursor, now);
    var plan := PlanFor(p.cron, s.cursor, now);
    var selected := Selected(p, plan, true);
    AllDispatched(p, s, plan, 0, s.cursor, now, targets);
    assert selected[0..] == selected;
  }
}
