/** Calls that publish: what a call comes to whose own file-system steps all succeed, whatever other
    calls do meanwhile. */
module BlobOutcomes {
  import opened BlobStore
  import opened Options

  /** Every call that begins in the run with the key's digest brings these bytes. */
  predicate NoCollision(run: Run, h: Digest, key: Key, bytes: Bytes)
    decreases run
  {
    match run
    case End => true
    case Then(e, rest) => (e.Begin? && h(e.bytes) == key ==> e.bytes == bytes) && NoCollision(rest, h, key, bytes)
  }

  /** None of the call's own steps fails, each write makes progress, and the call is not cut by a crash. */
  predicate Steady(run: Run, c: Caller)
    decreases run
  {
    match run
    case End => true
    case Then(e, rest) => (e.Advance? && e.caller == c ==> e.ok && 0 < e.amount) && e != Crash(c) && Steady(rest, c)
  }

  /** How many steps the call takes in the run. */
  function OwnSteps(run: Run, c: Caller): nat
    decreases run
  {
    match run
    case End => 0
    case Then(e, rest) => (if e.Advance? && e.caller == c then 1 else 0) + OwnSteps(rest, c)
  }

  /** How many successful steps are left, at most. */
  function StepsLeft(call: Call): nat {
    match call.phase
    case Checking => |call.bytes| + 10
    case Opening => |call.bytes| + 9
    case Writing(written) => (if written < |call.bytes| then |call.bytes| - written else 0) + 8
    case Syncing => 7
    case Hooking => 6
    case Linking => 5
    case LinkRefused => 4
    case Comparing => 3
    case Unlinking(_) => 2
    case Confirming => 1
    case Adopting => 1
    case _ => 0
  }

  /** The call has not failed, and past its link there is something at the content path. */
  predicate OnCourse(s: Disk, c: Caller) {
    c in s.calls && var p := s.calls[c].phase;
    && !p.Cleaning? && !p.Raised? && !p.Crashed?
    && (!Unlinked(p) ==> s.final.Some?)
  }

  /** Calls with the key's digest bring these bytes, so these are what is published. */
  ghost predicate OneContent(s: Disk, h: Digest, key: Key, bytes: Bytes) {
    forall d :: d in s.calls && h(s.calls[d].bytes) == key ==> s.calls[d].bytes == bytes
  }

  lemma PublishedIs(s: Disk, h: Digest, key: Key, bytes: Bytes)
    requires Good(s, h, key) && OneContent(s, h, key, bytes) && s.final.Some?
    ensures Content(s) == Some(bytes)
  {
  }

  lemma {:induction false} RunsKeepOneContent(s: Disk, h: Digest, key: Key, run: Run, bytes: Bytes)
    requires OneContent(s, h, key, bytes) && NoCollision(run, h, key, bytes)
    ensures OneContent(After(s, h, key, run), h, key, bytes)
    decreases run
  {
    match run
    case End =>
    case Then(e, rest) =>
      EventsKeepBytes(s, h, key, e);
      RunsKeepOneContent(Apply(s, h, key, e), h, key, rest, bytes);
  }

  /** No event changes what a call brings. */
  lemma EventsKeepBytes(s: Disk, h: Digest, key: Key, e: Event)
    ensures var k := Apply(s, h, key, e);
      && s.calls.Keys <= k.calls.Keys
      && (forall d :: d in s.calls ==> k.calls[d].bytes == s.calls[d].bytes && k.calls[d].kind == s.calls[d].kind)
      && (forall d :: d in k.calls && d !in s.calls ==> e.Begin? && e.caller == d && k.calls[d].bytes == e.bytes)
  {
    if e.Advance? && e.caller in s.calls {
      StepFootprint(s, h, key, e.caller, e.ok, e.amount);
      StepKeepsOwn(s, h, key, e.caller, e.ok, e.amount);
    }
  }

  lemma StepKeepsOwn(s: Disk, h: Digest, key: Key, c: Caller, ok: bool, amount: nat)
    requires c in s.calls
    ensures var k := Step(s, h, key, c, ok, amount);
      c in k.calls && k.calls[c].bytes == s.calls[c].bytes && k.calls[c].kind == s.calls[c].kind
  {
  }

  lemma PrepareStaysOnCourse(s: Disk, c: Caller, amount: nat)
    requires OnCourse(s, c) && Unlinked(s.calls[c].phase) && 0 < amount
    ensures var k := Prepare(s, c, true, amount); OnCourse(k, c) && StepsLeft(k.calls[c]) < StepsLeft(s.calls[c])
  {
    if s.calls[c].phase.Writing? { WriteStaysOnCourse(s, c, amount); }
  }

  /** A successful step of the call itself keeps it on course, and leaves it fewer. */
  lemma StepStaysOnCourse(s: Disk, h: Digest, key: Key, c: Caller, amount: nat)
    requires Good(s, h, key) && OnCourse(s, c) && OneContent(s, h, key, s.calls[c].bytes) && 0 < amount
    ensures var k := Step(s, h, key, c, true, amount);
      && OnCourse(k, c)
      && (if s.calls[c].phase.Returned? then k.calls[c].phase.Returned? else StepsLeft(k.calls[c]) < StepsLeft(s.calls[c]))
  {
    if Unlinked(s.calls[c].phase) {
      PrepareStaysOnCourse(s, c, amount);
    } else {
      assert GoodCall(s, h, key, c, s.calls[c]);
      PublishedIs(s, h, key, s.calls[c].bytes);
    }
  }

  lemma WriteStaysOnCourse(s: Disk, c: Caller, amount: nat)
    requires c in s.calls && s.calls[c].phase.Writing? && 0 < amount
    ensures var k := Write(s, c, true, amount); OnCourse(k, c) && StepsLeft(k.calls[c]) < StepsLeft(s.calls[c])
  {
  }

  /** Nor does any event of another call, or a step that is not taken. */
  lemma OthersKeepCourse(s: Disk, h: Digest, key: Key, e: Event, c: Caller)
    requires OnCourse(s, c) && !e.Delete? && e != Crash(c) && !(e.Advance? && e.caller == c)
    ensures var k := Apply(s, h, key, e); OnCourse(k, c) && k.calls[c] == s.calls[c]
  {
    if e.Advance? && e.caller in s.calls { StepFootprint(s, h, key, e.caller, e.ok, e.amount); }
  }

  lemma {:induction false} StaysOnCourse(s: Disk, h: Digest, key: Key, run: Run, c: Caller)
    requires Good(s, h, key) && OnCourse(s, c) && OneContent(s, h, key, s.calls[c].bytes)
    requires NoDelete(run) && Steady(run, c) && NoCollision(run, h, key, s.calls[c].bytes)
    ensures var k := After(s, h, key, run);
      OnCourse(k, c) && (s.calls[c].phase.Returned? || StepsLeft(s.calls[c]) <= OwnSteps(run, c) ==> k.calls[c].phase.Returned?)
    decreases run
  {
    match run
    case End => if StepsLeft(s.calls[c]) == 0 { assert s.calls[c].phase.Returned?; }
    case Then(e, rest) =>
      var k := Apply(s, h, key, e);
      EventsStayGood(s, h, key, e);
      EventsKeepBytes(s, h, key, e);
      if e.Advance? && e.caller == c {
        StepStaysOnCourse(s, h, key, c, e.amount);
      } else {
        OthersKeepCourse(s, h, key, e, c);
      }
      StaysOnCourse(k, h, key, rest, c);
  }

  /** Every call whose own steps succeed returns: whatever other calls do, without deletes, such a call
      never fails, and has returned with its bytes published after at most ten steps more than it
      has bytes to write. It fails only if one of its own steps does, its bytes have not the key's
      digest, or another call's bytes with that digest differ. */
  lemma SteadyCallReturns(h: Digest, key: Key, before: Run, c: Caller, kind: Kind, bytes: Bytes, run: Run)
    requires NoDelete(before) && NoCollision(before, h, key, bytes) && c !in After(EMPTY, h, key, before).calls
    requires NoDelete(run) && NoCollision(run, h, key, bytes) && Steady(run, c) && h(bytes) == key
    ensures var s := After(After(EMPTY, h, key, before), h, key, Then(Begin(c, kind, bytes), run));
      && c in s.calls && s.calls[c].bytes == bytes && !s.calls[c].phase.Raised? && !s.calls[c].phase.Cleaning?
      && (s.calls[c].phase.Returned? ==> Content(s) == Some(bytes) && c !in s.temps)
      && (|bytes| + 10 <= OwnSteps(run, c) ==> s.calls[c].phase.Returned?)
  {
    RunsStayGood(EMPTY, h, key, before);
    RunsKeepOneContent(EMPTY, h, key, before, bytes);
    var s := After(EMPTY, h, key, before);
    var k := Apply(s, h, key, Begin(c, kind, bytes));
    EventsStayGood(s, h, key, Begin(c, kind, bytes));
    assert OnCourse(k, c) && OneContent(k, h, key, bytes);
    StaysOnCourse(k, h, key, run, c);
    RunsStayGood(k, h, key, run);
    RunsKeepOneContent(k, h, key, run, bytes);
    RunsKeepBytes(k, h, key, run, c);
    var t := After(k, h, key, run);
    if t.final.Some? { PublishedIs(t, h, key, bytes); }
    assert GoodCall(t, h, key, c, t.calls[c]);
  }

  lemma {:induction false} RunsKeepBytes(s: Disk, h: Digest, key: Key, run: Run, c: Caller)
    requires c in s.calls
    ensures c in After(s, h, key, run).calls && After(s, h, key, run).calls[c].bytes == s.calls[c].bytes
    decreases run
  {
    match run
    case End =>
    case Then(e, rest) =>
      EventsKeepBytes(s, h, key, e);
      RunsKeepBytes(Apply(s, h, key, e), h, key, rest, c);
  }

  /** A run of nothing but successful steps of one call. */
  predicate Alone(run: Run, c: Caller)
    decreases run
  {
    run.Then? ==> run.event.Advance? && run.event.caller == c && run.event.ok && 0 < run.event.amount && Alone(run.rest, c)
  }

  lemma {:induction false} AloneIsSteady(run: Run, c: Caller, h: Digest, key: Key, bytes: Bytes)
    requires Alone(run, c)
    ensures NoDelete(run) && NoCollision(run, h, key, bytes) && Steady(run, c)
    decreases run
  {
    if run.Then? { AloneIsSteady(run.rest, c, h, key, bytes); }
  }

  lemma {:induction false} AloneMakesNoOther(s: Disk, h: Digest, key: Key, run: Run, c: Caller)
    requires Alone(run, c) && s.calls.Keys == {c} && s.temps <= {c}
    ensures After(s, h, key, run).temps <= {c}
    decreases run
  {
    if run.Then? {
      var k := Apply(s, h, key, run.event);
      StepFootprint(s, h, key, c, run.event.ok, run.event.amount);
      assert forall d :: d in k.temps ==> d == c;
      AloneMakesNoOther(k, h, key, run.rest, c);
    }
  }

  /** A first call on an empty store, whose steps all succeed, publishes its bytes and leaves nothing else. */
  lemma FirstCallPublishes(h: Digest, key: Key, c: Caller, kind: Kind, bytes: Bytes, run: Run)
    requires h(bytes) == key && Alone(run, c) && |bytes| + 10 <= OwnSteps(run, c)
    ensures var s := After(EMPTY, h, key, Then(Begin(c, kind, bytes), run));
      c in s.calls && s.calls[c].phase.Returned? && Content(s) == Some(bytes) && s.temps == {}
  {
    AloneIsSteady(run, c, h, key, bytes);
    SteadyCallReturns(h, key, End, c, kind, bytes, run);
    AloneMakesNoOther(Apply(EMPTY, h, key, Begin(c, kind, bytes)), h, key, run, c);
    assert After(EMPTY, h, key, End) == EMPTY;
  }

  // ----- calls whose steps fail -----

  /** What is at the content path has the caller's size and the key's digest, and for `put` its bytes. */
  predicate Matching(s: Disk, h: Digest, key: Key, call: Call) {
    && s.final.Some? && s.final.value in s.files && |s.files[s.final.value]| == |call.bytes| && h(s.files[s.final.value]) == key
    && (call.kind == Put ==> s.files[s.final.value] == call.bytes)
  }

  /** A failed step changes no file and no name. It makes the call clean up and throw, but for two that
      it recovers from when something is at the content path by then: a refused link, and for `put` the
      removal of its temporary name behind its own link. A failed cleaning leaves the temporary file. */
  lemma FailedStepLeads(s: Disk, h: Digest, key: Key, c: Caller, amount: nat)
    requires c in s.calls
    ensures var call, k := s.calls[c], Step(s, h, key, c, false, amount);
      && k.files == s.files && k.temps == s.temps && k.final == s.final && c in k.calls
      && k.calls[c].phase ==
        if call.phase in {Returned, Raised(true), Raised(false), Crashed} then call.phase
        else if call.phase == Checking then Raised(false)
        else if call.phase == Linking || (call.phase == Unlinking(OwnLink) && call.kind == Put) then LinkRefused
        else if call.phase == LinkRefused && s.final.Some? then (if call.kind == Put then Comparing else Unlinking(Adopted))
        else if call.phase == Cleaning then Raised(c in s.temps)
        else Cleaning
  {
  }

  /** A call that finds the file of another there returns exactly when that one matches what it brings:
      `put` compares the two and drops its temporary file, `putDurable` drops it first. */
  lemma RefusedLinkReturns(s: Disk, h: Digest, key: Key, c: Caller)
    requires c in s.calls && s.calls[c].phase == LinkRefused && s.final.Some?
    ensures var call := s.calls[c];
      var k := Step(Step(Step(s, h, key, c, true, 0), h, key, c, true, 0), h, key, c, true, 0);
      && c in k.calls && k.final == s.final && k.files == s.files
      && (if call.kind == Put then
            k.calls[c].phase == if Matching(s, h, key, call) then Confirming else Raised(false)
          else
            c !in k.temps && k.calls[c].phase == if Matching(s, h, key, call) then Returned else Cleaning)
  {
    LinkRefusedStep(s, h, key, c);
    var i := Step(s, h, key, c, true, 0);
    if s.calls[c].kind.Put? { ComparingStep(i, h, key, c); }
  }

  lemma LinkRefusedStep(s: Disk, h: Digest, key: Key, c: Caller)
    requires c in s.calls && s.calls[c].phase == LinkRefused && s.final.Some?
    ensures Step(s, h, key, c, true, 0) == At(s, c, if s.calls[c].kind == Put then Comparing else Unlinking(Adopted))
  {
  }

  lemma ComparingStep(s: Disk, h: Digest, key: Key, c: Caller)
    requires c in s.calls && s.calls[c].phase == Comparing && s.calls[c].kind == Put
    ensures Step(s, h, key, c, true, 0) == At(s, c, if Matching(s, h, key, s.calls[c]) then Unlinking(Compared) else Cleaning)
  {
  }

  /** Bytes without the key's digest are refused before anything is touched; a call is begun once. */
  lemma WrongBytesRefused(s: Disk, h: Digest, key: Key, c: Caller, kind: Kind, bytes: Bytes)
    requires c !in s.calls
    ensures var k := Apply(s, h, key, Begin(c, kind, bytes));
      && k.files == s.files && k.temps == s.temps && k.final == s.final && k.calls.Keys == s.calls.Keys + {c}
      && (if h(bytes) == key then k.calls[c].phase == Checking else k.calls[c].phase == Raised(false))
      && !k.calls[c].hooked
  {
  }

  /** A call's hook is done once its own hook step succeeded, and not before. */
  lemma HookedByHook(s: Disk, h: Digest, key: Key, c: Caller, ok: bool, amount: nat)
    requires c in s.calls
    ensures var k := Step(s, h, key, c, ok, amount);
      c in k.calls && (k.calls[c].hooked <==> s.calls[c].hooked || (s.calls[c].phase == Hooking && ok))
  {
  }

  /** A delete takes the name away and nothing else: the next call publishes anew. */
  lemma DeleteRemoves(s: Disk, h: Digest, key: Key)
    ensures var k := Apply(s, h, key, Delete); Content(k) == None && k.files == s.files && k.temps == s.temps && k.calls == s.calls
  {
  }
}
