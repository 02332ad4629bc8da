/** Connection attempts of one box. Each captured the epoch it began under; every lifecycle operation
    bumps the epoch, so that what older attempts still do is fenced off. */
module BoxLifecycle {
  import opened Options

  type Epoch = nat

  datatype BoxStatus = Bootstrapping | Deploying | Failed | Offline

  /** Where an attempt waits: for the platform, the binary, the credential, the local ssh, its tunnel's
      exit, or the last of that tunnel's error output. */
  datatype Stage = Detecting | Installing | Credentialing | Probing | Tunnelled | Draining | Over

  datatype Attempt = Attempt(epoch: Epoch, stage: Stage)

  /** `timer` holds the epoch that the armed reconnect captured. `statuses`, `tunnels` and `platforms`
      are what the box was made to show, spawn and store, in order. */
  datatype Box = Box(epoch: Epoch, removed: bool, stopping: bool, autoReconnect: bool, timer: Option<Epoch>, backoff: nat,
                     attempts: seq<Attempt>, statuses: seq<BoxStatus>, tunnels: seq<nat>, platforms: seq<nat>)

  const MAX_BACKOFF := 60_000
  const INITIAL_BACKOFF := 2_000

  /** Whether `epoch` is still the current attempt. */
  predicate Live(b: Box, epoch: Epoch) { b.epoch == epoch && !b.removed && !b.stopping }

  function Show(b: Box, status: BoxStatus): Box { b.(statuses := b.statuses + [status]) }

  function At(b: Box, i: nat, stage: Stage): Box
    requires i < |b.attempts|
  {
    b.(attempts := b.attempts[i := b.attempts[i].(stage := stage)])
  }

  function ScheduleReconnect(b: Box, epoch: Epoch): Box {
    if !Live(b, epoch) || !b.autoReconnect || b.timer.Some? then b
    else b.(timer := Some(epoch), backoff := if 2 * b.backoff < MAX_BACKOFF then 2 * b.backoff else MAX_BACKOFF)
  }

  /** An attempt begins: it shows that it does, unless it was superseded already. */
  function Begin(b: Box, epoch: Epoch): Box {
    if !Live(b, epoch) then b else Show(b.(attempts := b.attempts + [Attempt(epoch, Detecting)]), Bootstrapping)
  }

  function FailAttempt(b: Box, i: nat): Box
    requires i < |b.attempts|
  {
    var over := At(b, i, Over);
    if !Live(b, b.attempts[i].epoch) then over else ScheduleReconnect(Show(over, Failed), b.attempts[i].epoch)
  }

  /** What follows a stage that ended well. The detected platform is stored before the attempt looks
      whether it is still current. */
  function Advance(b: Box, i: nat): Box
    requires i < |b.attempts| && b.attempts[i].stage != Draining
  {
    var live := Live(b, b.attempts[i].epoch);
    match b.attempts[i].stage
    case Over => b
    case Detecting =>
      var stored := b.(platforms := b.platforms + [i]);
      if live then Show(At(stored, i, Installing), Deploying) else At(stored, i, Over)
    case Installing => At(b, i, if live then Credentialing else Over)
    case Credentialing => At(b, i, if live then Probing else Over)
    case Probing => if live then At(b, i, Tunnelled).(tunnels := b.tunnels + [i]) else At(b, i, Over)
    case Tunnelled => At(b, i, if live then Draining else Over)
  }

  /** A tunnel that exited is classified once its error output ended: `forward` says that its remote
      port was taken, and `spent` that its quick retries are over. */
  function Drained(b: Box, i: nat, forward: bool, spent: bool): Box
    requires i < |b.attempts|
  {
    var epoch, over := b.attempts[i].epoch, At(b, i, Over);
    if !Live(b, epoch) then over
    else if !forward then ScheduleReconnect(Show(over, Offline), epoch)
    else if spent then ScheduleReconnect(Show(over, Failed), epoch)
    else if b.timer.Some? then over
    else over.(timer := Some(epoch))
  }

  /** What an attempt does when what it waits for ends, well or not. */
  function Resume(b: Box, i: nat, ok: bool, forward: bool, spent: bool): Box
    requires i < |b.attempts|
  {
    if b.attempts[i].stage == Draining then Drained(b, i, forward, spent)
    else if ok || b.attempts[i].stage == Over then Advance(b, i)
    else FailAttempt(b, i)
  }

  datatype Op =
    | Start | Stop | Remove | Shutdown | ResetBackoff
    | Continue(attempt: nat, ok: bool, forward: bool, spent: bool)
    | ReadinessTimeout(attempt: nat)
    | FireTimer

  function Superseded(b: Box): Box { b.(epoch := b.epoch + 1, timer := None) }

  function Apply(b: Box, op: Op): Box {
    match op
    case Start => if b.stopping then b else Begin(b.(removed := false, epoch := b.epoch + 1), b.epoch + 1)
    case Stop => Superseded(b)
    case Remove => Superseded(b.(removed := true))
    case Shutdown => Superseded(b.(stopping := true))
    case ResetBackoff => b.(backoff := INITIAL_BACKOFF)
    case Continue(i, ok, forward, spent) => if i < |b.attempts| then Resume(b, i, ok, forward, spent) else b
    case ReadinessTimeout(i) => if i < |b.attempts| && Live(b, b.attempts[i].epoch) then Show(b, Failed) else b
    case FireTimer => if b.timer.None? then b else Begin(b.(timer := None), b.timer.value)
  }

  datatype Run = End | Then(op: Op, rest: Run)

  function After(b: Box, run: Run): Box
    decreases run
  {
    match run
    case End => b
    case Then(op, rest) => After(Apply(b, op), rest)
  }

  // ----- the fence -----

  /** The operation is a step of one of the first `n` attempts. */
  predicate StepOf(op: Op, n: nat) {
    (op.Continue? || op.ReadinessTimeout?) && op.attempt < n
  }

  /** The run without the steps of the first `n` attempts. */
  function Without(run: Run, n: nat): Run {
    match run
    case End => End
    case Then(op, rest) => if StepOf(op, n) then Without(rest, n) else Then(op, Without(rest, n))
  }

  /** The first `n` attempts were superseded. */
  predicate AllOld(b: Box, n: nat) {
    n <= |b.attempts| && forall i :: 0 <= i < n ==> b.attempts[i].epoch < b.epoch
  }

  /** The same box but for how far its first `n` attempts got, and for the platforms they stored. */
  predicate Alike(b: Box, c: Box, n: nat) {
    && c.epoch == b.epoch && c.removed == b.removed && c.stopping == b.stopping && c.autoReconnect == b.autoReconnect
    && c.timer == b.timer && c.backoff == b.backoff && c.statuses == b.statuses && c.tunnels == b.tunnels
    && |c.attempts| == |b.attempts|
    && (forall i :: 0 <= i < |b.attempts| ==> c.attempts[i].epoch == b.attempts[i].epoch)
    && (forall i :: n <= i < |b.attempts| ==> c.attempts[i] == b.attempts[i])
  }

  /** A superseded attempt that goes on changes only how far it got, and what platforms it stored. */
  lemma OldResume(b: Box, i: nat, ok: bool, forward: bool, spent: bool)
    requires i < |b.attempts| && b.attempts[i].epoch < b.epoch
    ensures var f := Resume(b, i, ok, forward, spent);
      && f.(attempts := b.attempts, platforms := b.platforms) == b
      && f.attempts == b.attempts[i := Attempt(b.attempts[i].epoch, f.attempts[i].stage)]
      && !f.attempts[i].stage.Detecting?
      && f.platforms == (if ok && b.attempts[i].stage.Detecting? then b.platforms + [i] else b.platforms)
  {
  }

  lemma OldStepChangesNothing(b: Box, c: Box, op: Op, n: nat)
    requires AllOld(b, n) && Alike(b, c, n) && StepOf(op, n)
    ensures AllOld(Apply(b, op), n) && Alike(Apply(b, op), c, n)
  {
    if op.Continue? { OldResume(b, op.attempt, op.ok, op.forward, op.spent); }
  }

  lemma AtAlike(b: Box, c: Box, i: nat, stage: Stage, n: nat)
    requires Alike(b, c, n) && AllOld(b, n) && n <= i < |b.attempts|
    ensures Alike(At(b, i, stage), At(c, i, stage), n) && AllOld(At(b, i, stage), n)
  {
  }

  lemma ScheduleAlike(b: Box, c: Box, epoch: Epoch, n: nat)
    requires Alike(b, c, n) && AllOld(b, n)
    ensures Alike(ScheduleReconnect(b, epoch), ScheduleReconnect(c, epoch), n) && AllOld(ScheduleReconnect(b, epoch), n)
  {
  }

  lemma ShowAlike(b: Box, c: Box, status: BoxStatus, n: nat)
    requires Alike(b, c, n) && AllOld(b, n)
    ensures Alike(Show(b, status), Show(c, status), n) && AllOld(Show(b, status), n)
  {
  }

  /** Ends an attempt, shows it and schedules the next. */
  function Ended(b: Box, i: nat, status: BoxStatus): Box
    requires i < |b.attempts|
  {
    ScheduleReconnect(Show(At(b, i, Over), status), b.attempts[i].epoch)
  }

  lemma EndedAlike(b: Box, c: Box, i: nat, status: BoxStatus, n: nat)
    requires Alike(b, c, n) && AllOld(b, n) && n <= i < |b.attempts|
    ensures Alike(Ended(b, i, status), Ended(c, i, status), n) && AllOld(Ended(b, i, status), n)
  {
    AtAlike(b, c, i, Over, n);
    ShowAlike(At(b, i, Over), At(c, i, Over), status, n);
    ScheduleAlike(Show(At(b, i, Over), status), Show(At(c, i, Over), status), b.attempts[i].epoch, n);
  }

  lemma AdvanceAlike(b: Box, c: Box, i: nat, n: nat)
    requires Alike(b, c, n) && AllOld(b, n) && n <= i < |b.attempts| && b.attempts[i].stage != Draining
    ensures c.attempts[i].stage != Draining && Alike(Advance(b, i), Advance(c, i), n) && AllOld(Advance(b, i), n)
  {
    assert c.attempts[i] == b.attempts[i];
    AtAlike(b, c, i, Over, n);
  }

  lemma DrainedAlike(b: Box, c: Box, i: nat, forward: bool, spent: bool, n: nat)
    requires Alike(b, c, n) && AllOld(b, n) && n <= i < |b.attempts|
    ensures Alike(Drained(b, i, forward, spent), Drained(c, i, forward, spent), n) && AllOld(Drained(b, i, forward, spent), n)
  {
    assert c.attempts[i] == b.attempts[i];
    AtAlike(b, c, i, Over, n);
    EndedAlike(b, c, i, Offline, n);
    EndedAlike(b, c, i, Failed, n);
  }

  lemma ResumeAlike(b: Box, c: Box, i: nat, ok: bool, forward: bool, spent: bool, n: nat)
    requires Alike(b, c, n) && AllOld(b, n) && n <= i < |b.attempts|
    ensures Alike(Resume(b, i, ok, forward, spent), Resume(c, i, ok, forward, spent), n)
    ensures AllOld(Resume(b, i, ok, forward, spent), n)
  {
    assert c.attempts[i] == b.attempts[i];
    if b.attempts[i].stage == Draining {
      DrainedAlike(b, c, i, forward, spent, n);
    } else if ok || b.attempts[i].stage == Over {
      AdvanceAlike(b, c, i, n);
    } else {
      AtAlike(b, c, i, Over, n);
      EndedAlike(b, c, i, Failed, n);
    }
  }

  lemma BeginAlike(b: Box, c: Box, epoch: Epoch, n: nat)
    requires Alike(b, c, n) && AllOld(b, n)
    ensures Alike(Begin(b, epoch), Begin(c, epoch), n) && AllOld(Begin(b, epoch), n)
  {
  }

  lemma StartAlike(b: Box, c: Box, n: nat)
    requires Alike(b, c, n) && AllOld(b, n)
    ensures Alike(Apply(b, Start), Apply(c, Start), n) && AllOld(Apply(b, Start), n)
  {
    if !b.stopping {
      BeginAlike(b.(removed := false, epoch := b.epoch + 1), c.(removed := false, epoch := c.epoch + 1), b.epoch + 1, n);
    }
  }

  lemma TimerAlike(b: Box, c: Box, n: nat)
    requires Alike(b, c, n) && AllOld(b, n)
    ensures Alike(Apply(b, FireTimer), Apply(c, FireTimer), n) && AllOld(Apply(b, FireTimer), n)
  {
    if b.timer.Some? { BeginAlike(b.(timer := None), c.(timer := None), b.timer.value, n); }
  }

  lemma TimeoutAlike(b: Box, c: Box, i: nat, n: nat)
    requires Alike(b, c, n) && AllOld(b, n) && n <= i
    ensures Alike(Apply(b, ReadinessTimeout(i)), Apply(c, ReadinessTimeout(i)), n) && AllOld(Apply(b, ReadinessTimeout(i)), n)
  {
    if i < |b.attempts| { assert c.attempts[i] == b.attempts[i]; }
  }

  lemma OtherStepsStayAlike(b: Box, c: Box, op: Op, n: nat)
    requires AllOld(b, n) && Alike(b, c, n) && !StepOf(op, n)
    ensures AllOld(Apply(b, op), n) && Alike(Apply(b, op), Apply(c, op), n)
  {
    match op
    case Start => StartAlike(b, c, n);
    case Stop =>
    case Remove =>
    case Shutdown =>
    case ResetBackoff =>
    case Continue(i, ok, forward, spent) => if i < |b.attempts| { ResumeAlike(b, c, i, ok, forward, spent, n); }
    case ReadinessTimeout(i) => TimeoutAlike(b, c, i, n);
    case FireTimer => TimerAlike(b, c, n);
  }

  lemma {:induction false} RunsStayAlike(b: Box, c: Box, run: Run, n: nat)
    requires AllOld(b, n) && Alike(b, c, n)
    ensures Alike(After(b, run), After(c, Without(run, n)), n)
    decreases run
  {
    match run
    case End =>
    case Then(op, rest) =>
      if StepOf(op, n) {
        OldStepChangesNothing(b, c, op, n);
        RunsStayAlike(Apply(b, op), c, rest, n);
      } else {
        OtherStepsStayAlike(b, c, op, n);
        RunsStayAlike(Apply(b, op), Apply(c, op), rest, n);
      }
  }

  /** Attempts never name an epoch to come. */
  predicate Captured(b: Box) {
    (forall i :: 0 <= i < |b.attempts| ==> b.attempts[i].epoch <= b.epoch) && (b.timer.Some? ==> b.timer.value <= b.epoch)
  }

  lemma ResumeStaysCaptured(b: Box, i: nat, ok: bool, forward: bool, spent: bool)
    requires Captured(b) && i < |b.attempts|
    ensures Captured(Resume(b, i, ok, forward, spent))
  {
  }

  lemma OpsStayCaptured(b: Box, op: Op)
    requires Captured(b)
    ensures Captured(Apply(b, op))
  {
    if op.Continue? && op.attempt < |b.attempts| { ResumeStaysCaptured(b, op.attempt, op.ok, op.forward, op.spent); }
  }

  lemma {:induction false} RunsStayCaptured(b: Box, run: Run)
    requires Captured(b)
    ensures Captured(After(b, run))
    decreases run
  {
    match run
    case End =>
    case Then(op, rest) =>
      OpsStayCaptured(b, op);
      RunsStayCaptured(Apply(b, op), rest);
  }

  predicate Bumps(op: Op) { op.Start? || op.Stop? || op.Remove? || op.Shutdown? }

  function NewBox(autoReconnect: bool): Box {
    Box(0, false, false, autoReconnect, None, INITIAL_BACKOFF, [], [], [], [])
  }

  /** Epoch fencing: once a lifecycle operation has bumped the epoch, every later step of every attempt
      from before can be struck from the run. The statuses shown, the tunnels spawned, the timer armed
      and the attempts that follow are the same. */
  lemma BumpFencesAttempts(autoReconnect: bool, before: Run, op: Op, run: Run)
    requires Bumps(op) && (op.Start? ==> !After(NewBox(autoReconnect), before).stopping)
    ensures var b := After(NewBox(autoReconnect), before);
      var n := |b.attempts|;
      Alike(After(Apply(b, op), run), After(Apply(b, op), Without(run, n)), n)
  {
    var b := After(NewBox(autoReconnect), before);
    RunsStayCaptured(NewBox(autoReconnect), before);
    RunsStayAlike(Apply(b, op), Apply(b, op), run, |b.attempts|);
  }

  // ----- what the fence lets through -----

  /** What attempt `i` first hears in the run is that its stage ended well. */
  predicate EndsWellFirst(run: Run, i: nat)
    decreases run
  {
    match run
    case End => false
    case Then(op, rest) => if op.Continue? && op.attempt == i then op.ok else EndsWellFirst(rest, i)
  }

  /** Attempt `i` is detecting the platform, and the run lets it end that. */
  predicate Detects(b: Box, run: Run, i: nat) {
    i < |b.attempts| && b.attempts[i].stage.Detecting? && EndsWellFirst(run, i)
  }

  predicate SomeDetects(b: Box, run: Run, n: nat) {
    exists i: nat :: i < n && Detects(b, run, i)
  }

  /** An attempt that goes on touches no other, and stores its platform exactly when it detected it. */
  lemma ResumeTouchesOne(b: Box, i: nat, ok: bool, forward: bool, spent: bool)
    requires i < |b.attempts|
    ensures var f := Resume(b, i, ok, forward, spent);
      && |f.attempts| == |b.attempts| && (forall j :: 0 <= j < |b.attempts| && j != i ==> f.attempts[j] == b.attempts[j])
      && f.platforms == b.platforms + if ok && b.attempts[i].stage.Detecting? then [i] else []
  {
  }

  /** How far the first `n` attempts got is up to their own steps. */
  lemma OtherStepsKeepStages(b: Box, op: Op, n: nat, i: nat)
    requires AllOld(b, n) && !StepOf(op, n) && i < n
    ensures |Apply(b, op).attempts| >= |b.attempts| && Apply(b, op).attempts[i] == b.attempts[i]
  {
    if op.Continue? && op.attempt < |b.attempts| { ResumeTouchesOne(b, op.attempt, op.ok, op.forward, op.spent); }
  }

  lemma OtherStepsKeepDetecting(b: Box, op: Op, rest: Run, n: nat)
    requires AllOld(b, n) && !StepOf(op, n)
    ensures SomeDetects(b, Then(op, rest), n) <==> SomeDetects(Apply(b, op), rest, n)
  {
    forall i: nat | i < n ensures Detects(b, Then(op, rest), i) <==> Detects(Apply(b, op), rest, i) {
      OtherStepsKeepStages(b, op, n, i);
    }
  }

  /** The step of an old attempt stores a platform exactly when it ends its detection well; either way
      the attempt is no longer detecting. */
  lemma OldStepStores(b: Box, op: Op, n: nat)
    requires AllOld(b, n) && StepOf(op, n)
    ensures var f, i := Apply(b, op), op.attempt;
      && f.platforms == (if op.Continue? && op.ok && b.attempts[i].stage.Detecting? then b.platforms + [i] else b.platforms)
      && |f.attempts| == |b.attempts|
      && (forall j :: 0 <= j < |b.attempts| && j != i ==> f.attempts[j] == b.attempts[j])
      && (if op.Continue? then !f.attempts[i].stage.Detecting? else f.attempts[i] == b.attempts[i])
  {
    if op.Continue? { OldResume(b, op.attempt, op.ok, op.forward, op.spent); }
  }

  lemma OldStepsDetecting(b: Box, op: Op, rest: Run, n: nat)
    requires AllOld(b, n) && StepOf(op, n)
    ensures SomeDetects(b, Then(op, rest), n) <==>
      Apply(b, op).platforms != b.platforms || SomeDetects(Apply(b, op), rest, n)
  {
    OldStepStores(b, op, n);
    var f := Apply(b, op);
    forall i: nat | i < n && i != op.attempt ensures Detects(b, Then(op, rest), i) <==> Detects(f, rest, i) {
    }
    if op.Continue? {
      assert !Detects(f, rest, op.attempt);
      assert Detects(b, Then(op, rest), op.attempt) <==> f.platforms != b.platforms;
    } else {
      assert Detects(b, Then(op, rest), op.attempt) <==> Detects(f, rest, op.attempt);
    }
  }

  /** Alike boxes store the same in the same step of a later attempt. */
  lemma OtherStepsStoreAlike(b: Box, c: Box, op: Op, n: nat)
    requires AllOld(b, n) && Alike(b, c, n) && !StepOf(op, n)
    ensures exists more :: Apply(b, op).platforms == b.platforms + more && Apply(c, op).platforms == c.platforms + more
  {
    if op.Continue? && op.attempt < |b.attempts| {
      assert c.attempts[op.attempt] == b.attempts[op.attempt];
      ResumeTouchesOne(b, op.attempt, op.ok, op.forward, op.spent);
      ResumeTouchesOne(c, op.attempt, op.ok, op.forward, op.spent);
      var more := if op.ok && b.attempts[op.attempt].stage.Detecting? then [op.attempt] else [];
      assert Apply(b, op).platforms == b.platforms + more && Apply(c, op).platforms == c.platforms + more;
    } else {
      assert Apply(b, op).platforms == b.platforms + [] && Apply(c, op).platforms == c.platforms + [];
    }
  }

  lemma {:induction false} RunsStorePlatforms(b: Box, c: Box, run: Run, n: nat)
    requires AllOld(b, n) && Alike(b, c, n)
    ensures var f, g := After(b, run), After(c, Without(run, n));
      && (!SomeDetects(b, run, n) && b.platforms == c.platforms ==> f.platforms == g.platforms)
      && (|b.platforms| >= |c.platforms| && SomeDetects(b, run, n) ==> |f.platforms| > |g.platforms|)
      && (|b.platforms| > |c.platforms| ==> |f.platforms| > |g.platforms|)
    decreases run
  {
    match run
    case End =>
    case Then(op, rest) =>
      if StepOf(op, n) {
        OldStepChangesNothing(b, c, op, n);
        OldStepStores(b, op, n);
        OldStepsDetecting(b, op, rest, n);
        RunsStorePlatforms(Apply(b, op), c, rest, n);
      } else {
        OtherStepsStayAlike(b, c, op, n);
        OtherStepsStoreAlike(b, c, op, n);
        OtherStepsKeepDetecting(b, op, rest, n);
        RunsStorePlatforms(Apply(b, op), Apply(c, op), rest, n);
      }
  }

  /** The one thing that is not fenced, exactly: after a bump, attempts from before change what platforms
      are stored if and only if one of them was detecting at the bump and then hears first that this
      ended well. */
  lemma PlatformsFencedExactly(autoReconnect: bool, before: Run, op: Op, run: Run)
    requires Bumps(op) && (op.Start? ==> !After(NewBox(autoReconnect), before).stopping)
    ensures var b := After(NewBox(autoReconnect), before);
      var n := |b.attempts|;
      After(Apply(b, op), run).platforms != After(Apply(b, op), Without(run, n)).platforms
      <==> exists i: nat :: i < n && b.attempts[i].stage.Detecting? && EndsWellFirst(run, i)
  {
    var b := After(NewBox(autoReconnect), before);
    var n, bumped := |b.attempts|, Apply(b, op);
    RunsStayCaptured(NewBox(autoReconnect), before);
    RunsStorePlatforms(bumped, bumped, run, n);
    forall i: nat | i < n ensures Detects(bumped, run, i) <==> b.attempts[i].stage.Detecting? && EndsWellFirst(run, i) {
      assert bumped.attempts[i] == b.attempts[i];
    }
    if i: nat :| i < n && b.attempts[i].stage.Detecting? && EndsWellFirst(run, i) {
      assert Detects(bumped, run, i);
    }
  }

  /** So with no attempt detecting at the bump, the platforms are fenced as well. */
  lemma PlatformsFenced(autoReconnect: bool, before: Run, op: Op, run: Run)
    requires Bumps(op) && (op.Start? ==> !After(NewBox(autoReconnect), before).stopping)
    requires var b := After(NewBox(autoReconnect), before); forall i :: 0 <= i < |b.attempts| ==> !b.attempts[i].stage.Detecting?
    ensures var b := After(NewBox(autoReconnect), before);
      After(Apply(b, op), run).platforms == After(Apply(b, op), Without(run, |b.attempts|)).platforms
  {
    PlatformsFencedExactly(autoReconnect, before, op, run);
  }

  /** Such an attempt: stopped while it detected the platform, it still stores it. */
  lemma SupersededAttemptStoresPlatform(autoReconnect: bool)
    ensures var b := After(NewBox(autoReconnect), Then(Start, Then(Stop, End)));
      b.attempts == [Attempt(1, Detecting)] && !Live(b, 1)
      && Apply(b, Continue(0, true, false, false)).platforms == [0]
  {
    var b := Apply(NewBox(autoReconnect), Start);
    assert b.attempts == [Attempt(1, Detecting)];
    assert After(NewBox(autoReconnect), Then(Start, Then(Stop, End))) == Apply(b, Stop);
  }

  /** A reconnect that fires continues only the epoch it captured: after a bump nothing of it remains. */
  lemma BumpDisarmsReconnect(autoReconnect: bool, before: Run, op: Op)
    requires Bumps(op) && !op.Start?
    ensures Apply(After(NewBox(autoReconnect), before), op).timer.None?
  {
  }
}
