/** What single steps of a box's connection attempts come to, and the course of an attempt that nothing
    stops. */
module BoxOutcomes {
  import opened BoxLifecycle
  import opened Options

  /** The attempt is the current one, and the box is neither removed nor shutting down. */
  predicate Current(b: Box, i: nat) {
    i < |b.attempts| && b.attempts[i].epoch == b.epoch && !b.removed && !b.stopping
  }

  /** Only the attempt's stage has changed. */
  predicate Reaches(b: Box, k: Box, i: nat, stage: Stage)
    requires i < |b.attempts|
  {
    k == b.(attempts := b.attempts[i := Attempt(b.attempts[i].epoch, stage)])
  }

  function Shows(b: Box, status: BoxStatus): Box {
    Box(b.epoch, b.removed, b.stopping, b.autoReconnect, b.timer, b.backoff, b.attempts, b.statuses + [status], b.tunnels, b.platforms)
  }

  /** A reconnect is armed for the epoch, unless one is or the box does not reconnect by itself; the wait
      for the next one doubles, up to a minute. */
  predicate Arms(b: Box, k: Box, epoch: Epoch) {
    if b.autoReconnect && b.timer == None
    then k == b.(timer := Some(epoch), backoff := if b.backoff < 30_000 then b.backoff + b.backoff else 60_000)
    else k == b
  }

  /** What a current attempt does next when what it waits for ended well: it deploys to the platform it
      detected, and stores that; it installs, credentials, probes; it spawns one tunnel; and when the
      tunnel exits it waits for the rest of its error output. */
  lemma GoesOn(b: Box, i: nat, forward: bool, spent: bool)
    requires Current(b, i)
    ensures var k := Apply(b, Continue(i, true, forward, spent));
      match b.attempts[i].stage
      case Detecting => Reaches(Shows(b.(platforms := b.platforms + [i]), Deploying), k, i, Installing)
      case Installing => Reaches(b, k, i, Credentialing)
      case Credentialing => Reaches(b, k, i, Probing)
      case Probing => Reaches(b.(tunnels := b.tunnels + [i]), k, i, Tunnelled)
      case Tunnelled => Reaches(b, k, i, Draining)
      case Draining => TunnelEnds(b, k, i, forward, spent)
      case Over => k == b
  {
  }

  /** A tunnel whose error output ended: the box is shown offline, or failed where its remote port was
      taken again and again, and reconnects; where the port was taken and quick retries are left, it
      retries at once, without showing anything or waiting longer. */
  ghost predicate TunnelEnds(b: Box, k: Box, i: nat, forward: bool, spent: bool)
    requires i < |b.attempts|
  {
    var over, epoch := b.(attempts := b.attempts[i := Attempt(b.attempts[i].epoch, Over)]), b.attempts[i].epoch;
    if forward && !spent then k == if b.timer == None then over.(timer := Some(epoch)) else over
    else Arms(Shows(over, if forward then Failed else Offline), k, epoch)
  }

  lemma OutputEnds(b: Box, i: nat, ok: bool, forward: bool, spent: bool)
    requires Current(b, i) && b.attempts[i].stage == Draining
    ensures TunnelEnds(b, Apply(b, Continue(i, ok, forward, spent)), i, forward, spent)
  {
  }

  /** An attempt that fails is over: the box is shown failed, and reconnects. */
  lemma AttemptFails(b: Box, i: nat, forward: bool, spent: bool)
    requires Current(b, i) && b.attempts[i].stage != Draining && b.attempts[i].stage != Over
    ensures var k := Apply(b, Continue(i, false, forward, spent));
      Arms(Shows(b.(attempts := b.attempts[i := Attempt(b.attempts[i].epoch, Over)]), Failed), k, b.attempts[i].epoch)
  {
  }

  /** One that is not current any more shows, spawns and arms nothing: whatever it waited for, it is over. */
  lemma SupersededEnds(b: Box, i: nat, ok: bool, forward: bool, spent: bool)
    requires i < |b.attempts| && !Current(b, i)
    ensures var k := Apply(b, Continue(i, ok, forward, spent));
      Reaches(if ok && b.attempts[i].stage == Detecting then b.(platforms := b.platforms + [i]) else b, k, i, Over)
  {
  }

  /** A readiness that does not come in time is shown for the current attempt only. */
  lemma ReadinessShows(b: Box, i: nat)
    ensures Apply(b, ReadinessTimeout(i)) == if Current(b, i) then Shows(b, Failed) else b
  {
  }

  /** A new attempt at the box's epoch. */
  predicate Attempts(b: Box, k: Box) {
    k == Shows(b.(attempts := b.attempts + [Attempt(b.epoch, Detecting)]), Bootstrapping)
  }

  /** What the lifecycle operations do: a start begins an attempt at a new epoch, unless the box shuts down;
      stop, removal and shutdown move to a new epoch with no reconnect armed. */
  lemma LifecycleMoves(b: Box)
    ensures if b.stopping then Apply(b, Start) == b else Attempts(b.(removed := false, epoch := b.epoch + 1), Apply(b, Start))
    ensures Apply(b, Stop) == b.(epoch := b.epoch + 1, timer := None)
    ensures Apply(b, Remove) == b.(epoch := b.epoch + 1, timer := None, removed := true)
    ensures Apply(b, Shutdown) == b.(epoch := b.epoch + 1, timer := None, stopping := true)
    ensures Apply(b, ResetBackoff) == b.(backoff := 2_000)
  {
  }

  /** A reconnect that fires begins an attempt if it was armed at the current epoch of a box that is still
      there, and is disarmed in any case. */
  lemma ReconnectBegins(b: Box)
    ensures var k, disarmed := Apply(b, FireTimer), b.(timer := None);
      if b.timer == None then k == b
      else if b.timer == Some(b.epoch) && !b.removed && !b.stopping then Attempts(disarmed, k)
      else k == disarmed
  {
  }

  // ----- the course of one attempt -----

  function Steps(i: nat, n: nat, rest: Run): Run {
    if n == 0 then rest else Then(Continue(i, true, false, false), Steps(i, n - 1, rest))
  }

  /** The box with its newest attempt at this stage, after these statuses were shown. */
  predicate Came(b: Box, k: Box, stage: Stage, statuses: seq<BoxStatus>, tunnels: seq<nat>) {
    var i := |b.attempts|;
    && k.epoch == b.epoch + 1 && !k.removed && !k.stopping && k.autoReconnect == b.autoReconnect && k.backoff == b.backoff
    && k.timer == b.timer
    && k.attempts == b.attempts + [Attempt(b.epoch + 1, stage)] && k.statuses == b.statuses + statuses && k.tunnels == b.tunnels + tunnels
  }

  lemma Continues(b: Box, k: Box, stage: Stage, statuses: seq<BoxStatus>, tunnels: seq<nat>)
    requires Came(b, k, stage, statuses, tunnels) && stage in {Detecting, Installing, Credentialing, Probing, Tunnelled}
    ensures var j := Apply(k, Continue(|b.attempts|, true, false, false));
      match stage
      case Detecting => Came(b, j, Installing, statuses + [Deploying], tunnels)
      case Installing => Came(b, j, Credentialing, statuses, tunnels)
      case Credentialing => Came(b, j, Probing, statuses, tunnels)
      case Probing => Came(b, j, Tunnelled, statuses, tunnels + [|b.attempts|])
      case _ => Came(b, j, Draining, statuses, tunnels)
  {
    GoesOn(k, |b.attempts|, false, false);
  }

  lemma Began(b: Box)
    requires !b.stopping
    ensures Came(b, Apply(b, Start), Detecting, [Bootstrapping], [])
  {
    LifecycleMoves(b);
  }

  lemma FromProbing(b: Box, k: Box, statuses: seq<BoxStatus>)
    requires Came(b, k, Probing, statuses, [])
    ensures Came(b, After(k, Steps(|b.attempts|, 1, End)), Tunnelled, statuses, [|b.attempts|])
  {
    var step := Continue(|b.attempts|, true, false, false);
    Continues(b, k, Probing, statuses, []);
    assert [] + [|b.attempts|] == [|b.attempts|];
    Stepped(k, step, Steps(|b.attempts|, 0, End), Apply(k, step));
  }

  lemma FromCredentialing(b: Box, k: Box, statuses: seq<BoxStatus>)
    requires Came(b, k, Credentialing, statuses, [])
    ensures Came(b, After(k, Steps(|b.attempts|, 2, End)), Tunnelled, statuses, [|b.attempts|])
  {
    var step := Continue(|b.attempts|, true, false, false);
    Continues(b, k, Credentialing, statuses, []);
    Stepped(k, step, Steps(|b.attempts|, 1, End), Apply(k, step));
    FromProbing(b, Apply(k, step), statuses);
  }

  lemma FromInstalling(b: Box, k: Box, statuses: seq<BoxStatus>)
    requires Came(b, k, Installing, statuses, [])
    ensures Came(b, After(k, Steps(|b.attempts|, 3, End)), Tunnelled, statuses, [|b.attempts|])
  {
    var step := Continue(|b.attempts|, true, false, false);
    Continues(b, k, Installing, statuses, []);
    Stepped(k, step, Steps(|b.attempts|, 2, End), Apply(k, step));
    FromCredentialing(b, Apply(k, step), statuses);
  }

  lemma FromDetecting(b: Box, k: Box)
    requires Came(b, k, Detecting, [Bootstrapping], [])
    ensures Came(b, After(k, Steps(|b.attempts|, 4, End)), Tunnelled, [Bootstrapping, Deploying], [|b.attempts|])
  {
    var step := Continue(|b.attempts|, true, false, false);
    Continues(b, k, Detecting, [Bootstrapping], []);
    assert [Bootstrapping] + [Deploying] == [Bootstrapping, Deploying];
    Stepped(k, step, Steps(|b.attempts|, 3, End), Apply(k, step));
    FromInstalling(b, Apply(k, step), [Bootstrapping, Deploying]);
  }

  /** An attempt whose stages all end well shows that it begins and that it deploys, and spawns exactly one
      tunnel. */
  lemma StartedBoxConnects(b: Box)
    requires !b.stopping
    ensures Came(b, After(b, Then(Start, Steps(|b.attempts|, 4, End))), Tunnelled, [Bootstrapping, Deploying], [|b.attempts|])
  {
    Began(b);
    Stepped(b, Start, Steps(|b.attempts|, 4, End), Apply(b, Start));
    FromDetecting(b, Apply(b, Start));
  }

  lemma Stepped(b: Box, op: Op, rest: Run, k: Box)
    requires k == Apply(b, op)
    ensures After(b, Then(op, rest)) == After(k, rest)
  {
  }

  /** When its tunnel exits, and its error output says nothing of a taken port, the box is shown offline
      and a reconnect is armed where it reconnects by itself. */
  lemma ExitReconnects(b: Box, k: Box)
    requires Came(b, k, Tunnelled, [Bootstrapping, Deploying], [|b.attempts|])
    ensures var exit := Continue(|b.attempts|, true, false, false);
      var j := After(k, Then(exit, Then(exit, End)));
      && j.statuses == b.statuses + [Bootstrapping, Deploying, Offline] && j.tunnels == k.tunnels
      && j.attempts == b.attempts + [Attempt(b.epoch + 1, Over)]
      && (k.autoReconnect && k.timer == None ==> j.timer == Some(b.epoch + 1))
  {
    var i, exit := |b.attempts|, Continue(|b.attempts|, true, false, false);
    Continues(b, k, Tunnelled, [Bootstrapping, Deploying], [i]);
    var m := Apply(k, exit);
    OutputEnds(m, i, true, false, false);
    assert After(k, Then(exit, Then(exit, End))) == After(m, Then(exit, End)) == Apply(m, exit);
    assert b.statuses + [Bootstrapping, Deploying] + [Offline] == b.statuses + [Bootstrapping, Deploying, Offline];
  }
}
