/** Decision checks of one subject: calls wait for each other through a chain that is cleaned up
    behind them, and a refusal sticks to the subject however it is asked again. */
module DecisionChecks {
  import opened Options

  /** An occurrence key: the digest of one wording of the request. */
  type Key = string

  datatype Verdict = Confirmed | Refused | Uncertain | Failed

  /** A call's outcome is what its occurrence, or an inherited one, says. A decided call has its
      occurrence, which it has still to link to the subject. */
  datatype Phase = Waiting | Deciding | Decided | Returned(outcome: Verdict) | Threw

  predicate Settled(phase: Phase) { phase.Returned? || phase.Threw? }

  /** `after` is the call it was chained behind. */
  datatype Call = Call(key: Key, after: Option<nat>, phase: Phase)

  datatype Occurrence = Occurrence(key: Key, verdict: Verdict)

  /** One subject: its calls in order, the head of its chain, the occurrences of its wordings, latest
      last, and the wordings whose occurrence is linked to it. */
  datatype Subject = Subject(calls: seq<Call>, chain: Option<nat>, occurrences: seq<Occurrence>, links: set<Key>)

  const NONE: Subject := Subject([], None, [], {})

  // ----- occurrences -----

  /** The verdict already recorded for a wording. */
  function Recorded(os: seq<Occurrence>, key: Key): Option<Verdict> {
    if os == [] then None
    else if os[|os| - 1].key == key then Some(os[|os| - 1].verdict)
    else Recorded(os[..|os| - 1], key)
  }

  /** The latest linked occurrence that did not confirm. */
  function LatestUnconfirmed(os: seq<Occurrence>, links: set<Key>): Option<Occurrence> {
    if os == [] then None
    else if os[|os| - 1].key in links && !os[|os| - 1].verdict.Confirmed? then Some(os[|os| - 1])
    else LatestUnconfirmed(os[..|os| - 1], links)
  }

  /** The latest unconfirmed occurrence, unless it is of the same wording. */
  function Sibling(os: seq<Occurrence>, links: set<Key>, key: Key): Option<Occurrence> {
    var latest := LatestUnconfirmed(os, links);
    if latest.Some? && latest.value.key != key then latest else None
  }

  /** A wording is decided once; asking it again replays what was recorded. */
  function WithDecision(os: seq<Occurrence>, key: Key, verdict: Verdict): seq<Occurrence> {
    if Recorded(os, key).Some? then os else os + [Occurrence(key, verdict)]
  }

  /** What a check returns once its wording is decided: a sibling that did not confirm wins. */
  function OutcomeOf(os: seq<Occurrence>, links: set<Key>, key: Key): Verdict
    requires Recorded(os, key).Some?
  {
    var own := Recorded(os, key).value;
    if own.Confirmed? && Sibling(os, links, key).Some? then Sibling(os, links, key).value.verdict else own
  }

  // ----- steps -----

  /** `routed`: the occurrence was handed to a person, which links it at once. `Crash` ends the process,
      and with it every call and the chain. `Elsewhere`: another control plane on the same database
      decides a wording of the subject. */
  datatype Event =
    | Arrive(key: Key)
    | Begin(call: nat)
    | Decide(call: nat, verdict: Verdict, routed: bool)
    | Link(call: nat)
    | Throw(call: nat)
    | CleanUp(call: nat)
    | Crash
    | Elsewhere(key: Key, verdict: Verdict, linked: bool)

  function With(s: Subject, i: nat, phase: Phase): Subject
    requires i < |s.calls|
  {
    s.(calls := s.calls[i := s.calls[i].(phase := phase)])
  }

  predicate Ready(s: Subject, i: nat) {
    i < |s.calls| && s.calls[i].phase.Waiting?
    && (s.calls[i].after.Some? ==> s.calls[i].after.value < |s.calls| && Settled(s.calls[s.calls[i].after.value].phase))
  }

  function Ended(c: Call): Call { if Settled(c.phase) then c else c.(phase := Threw) }

  function Apply(s: Subject, e: Event): Subject {
    match e
    case Arrive(key) => s.(calls := s.calls + [Call(key, s.chain, Waiting)], chain := Some(|s.calls|))
    case Begin(i) =>
      if !Ready(s, i) then s
      else
        var sibling := Sibling(s.occurrences, s.links, s.calls[i].key);
        With(s, i, if sibling.Some? then Returned(sibling.value.verdict) else Deciding)
    case Decide(i, verdict, routed) =>
      if i >= |s.calls| || !s.calls[i].phase.Deciding? then s
      else
        var key := s.calls[i].key;
        With(s.(occurrences := WithDecision(s.occurrences, key, verdict), links := if routed then s.links + {key} else s.links), i, Decided)
    case Link(i) =>
      if i >= |s.calls| || !s.calls[i].phase.Decided? || Recorded(s.occurrences, s.calls[i].key).None? then s
      else
        var key := s.calls[i].key;
        With(s.(links := s.links + {key}), i, Returned(OutcomeOf(s.occurrences, s.links + {key}, key)))
    case Throw(i) => if i < |s.calls| && (s.calls[i].phase.Deciding? || s.calls[i].phase.Decided?) then With(s, i, Threw) else s
    case CleanUp(i) => if i < |s.calls| && Settled(s.calls[i].phase) && s.chain == Some(i) then s.(chain := None) else s
    case Crash => s.(calls := seq(|s.calls|, i requires 0 <= i < |s.calls| => Ended(s.calls[i])), chain := None)
    case Elsewhere(key, verdict, linked) =>
      s.(occurrences := WithDecision(s.occurrences, key, verdict), links := if linked then s.links + {key} else s.links)
  }

  datatype Run = End | Then(event: Event, rest: Run)

  function After(s: Subject, run: Run): Subject
    decreases run
  {
    match run
    case End => s
    case Then(e, rest) => After(Apply(s, e), rest)
  }

  // ----- one check at a time -----

  /** A call waits for the one before it, or came when every earlier one had settled; the chain is
      empty only when all have. */
  predicate Chained(s: Subject) {
    && (forall i, j :: 0 <= i < j < |s.calls| && (!s.calls[j].phase.Waiting? || s.calls[j].after.None?) ==> Settled(s.calls[i].phase))
    && (forall j :: 0 <= j < |s.calls| && s.calls[j].after.Some? ==> s.calls[j].after.value + 1 == j)
    && (s.chain.Some? ==> s.chain.value + 1 == |s.calls|)
    && (s.chain.None? ==> forall i :: 0 <= i < |s.calls| ==> Settled(s.calls[i].phase))
  }

  lemma PhaseStaysChained(s: Subject, i: nat, phase: Phase)
    requires Chained(s) && i < |s.calls| && (Ready(s, i) || !s.calls[i].phase.Waiting?)
    requires !phase.Waiting? && (Settled(s.calls[i].phase) ==> Settled(phase))
    ensures Chained(With(s, i, phase))
  {
    var k := With(s, i, phase);
    forall a, b | 0 <= a < b < |k.calls| && (!k.calls[b].phase.Waiting? || k.calls[b].after.None?) ensures Settled(k.calls[a].phase) {
      if b == i {
        if s.calls[i].after.Some? && a + 1 < i { assert s.calls[i].phase.Waiting? ==> Settled(s.calls[i - 1].phase); }
      } else {
        assert Settled(s.calls[a].phase);
      }
    }
  }

  lemma RecordsStayChained(s: Subject, os: seq<Occurrence>, links: set<Key>)
    requires Chained(s)
    ensures Chained(s.(occurrences := os, links := links))
  {
  }

  lemma BeginStaysChained(s: Subject, i: nat)
    requires Chained(s)
    ensures Chained(Apply(s, Begin(i)))
  {
    if Ready(s, i) {
      var sibling := Sibling(s.occurrences, s.links, s.calls[i].key);
      PhaseStaysChained(s, i, if sibling.Some? then Returned(sibling.value.verdict) else Deciding);
    }
  }

  lemma DecideStaysChained(s: Subject, i: nat, verdict: Verdict, routed: bool)
    requires Chained(s)
    ensures Chained(Apply(s, Decide(i, verdict, routed)))
  {
    if i < |s.calls| && s.calls[i].phase.Deciding? {
      var key := s.calls[i].key;
      var os, links := WithDecision(s.occurrences, key, verdict), if routed then s.links + {key} else s.links;
      RecordsStayChained(s, os, links);
      PhaseStaysChained(s.(occurrences := os, links := links), i, Decided);
    }
  }

  lemma LinkStaysChained(s: Subject, i: nat)
    requires Chained(s)
    ensures Chained(Apply(s, Link(i)))
  {
    if i < |s.calls| && s.calls[i].phase.Decided? && Recorded(s.occurrences, s.calls[i].key).Some? {
      var key := s.calls[i].key;
      RecordsStayChained(s, s.occurrences, s.links + {key});
      PhaseStaysChained(s.(links := s.links + {key}), i, Returned(OutcomeOf(s.occurrences, s.links + {key}, key)));
    }
  }

  lemma CleanUpStaysChained(s: Subject, i: nat)
    requires Chained(s)
    ensures Chained(Apply(s, CleanUp(i)))
  {
    if i < |s.calls| && Settled(s.calls[i].phase) && s.chain == Some(i) {
      forall a | 0 <= a < |s.calls| ensures Settled(s.calls[a].phase) {
        assert a < i ==> Settled(s.calls[a].phase);
      }
    }
  }

  lemma EventsStayChained(s: Subject, e: Event)
    requires Chained(s)
    ensures Chained(Apply(s, e))
  {
    match e
    case Arrive(_) =>
    case Begin(i) => BeginStaysChained(s, i);
    case Decide(i, verdict, routed) => DecideStaysChained(s, i, verdict, routed);
    case Link(i) => LinkStaysChained(s, i);
    case Throw(i) => if i < |s.calls| && (s.calls[i].phase.Deciding? || s.calls[i].phase.Decided?) { PhaseStaysChained(s, i, Threw); }
    case CleanUp(i) => CleanUpStaysChained(s, i);
    case Crash =>
    case Elsewhere(key, verdict, linked) =>
      RecordsStayChained(s, WithDecision(s.occurrences, key, verdict), if linked then s.links + {key} else s.links);
  }

  lemma {:induction false} RunsStayChained(s: Subject, run: Run)
    requires Chained(s)
    ensures Chained(After(s, run))
    decreases run
  {
    match run
    case End =>
    case Then(e, rest) =>
      EventsStayChained(s, e);
      RunsStayChained(Apply(s, e), rest);
  }

  /** The call is past its turn and not settled. */
  predicate Runs(phase: Phase) { phase.Deciding? || phase.Decided? }

  /** Checks of one subject never run at once, whenever the chain behind them is cleaned up, whichever of
      them throws and whenever the process ends. */
  lemma OneCheckAtATime(run: Run, i: nat, j: nat)
    requires i < |After(NONE, run).calls| && j < |After(NONE, run).calls|
    requires Runs(After(NONE, run).calls[i].phase) && Runs(After(NONE, run).calls[j].phase)
    ensures i == j
  {
    RunsStayChained(NONE, run);
  }

  // ----- refusals stick -----

  /** A linked occurrence did not confirm. */
  predicate Refusing(os: seq<Occurrence>, links: set<Key>) {
    exists o :: o in os && o.key in links && !o.verdict.Confirmed?
  }

  lemma {:induction false} LatestIsThere(os: seq<Occurrence>, links: set<Key>)
    ensures var latest := LatestUnconfirmed(os, links);
      && (latest.Some? <==> Refusing(os, links))
      && (latest.Some? ==> latest.value in os && latest.value.key in links && !latest.value.verdict.Confirmed?)
    decreases |os|
  {
    if os != [] {
      LatestIsThere(os[..|os| - 1], links);
      assert os == os[..|os| - 1] + [os[|os| - 1]];
      assert os[|os| - 1] in os;
    }
  }

  /** Each wording has one occurrence. */
  predicate OnePerKey(os: seq<Occurrence>) {
    forall i, j :: 0 <= i < j < |os| ==> os[i].key != os[j].key
  }

  lemma {:induction false} RecordedIs(os: seq<Occurrence>, key: Key)
    ensures Recorded(os, key).Some? <==> exists o :: o in os && o.key == key
    ensures Recorded(os, key).Some? ==> Occurrence(key, Recorded(os, key).value) in os
    decreases |os|
  {
    if os != [] {
      RecordedIs(os[..|os| - 1], key);
      assert os == os[..|os| - 1] + [os[|os| - 1]];
      assert os[|os| - 1] in os;
    }
  }

  lemma SameOccurrence(os: seq<Occurrence>, o: Occurrence, p: Occurrence)
    requires OnePerKey(os) && o in os && p in os && o.key == p.key
    ensures o == p
  {
    var i :| 0 <= i < |os| && os[i] == o;
    var j :| 0 <= j < |os| && os[j] == p;
    if i < j { assert os[i].key != os[j].key; }
  }

  /** With an unconfirmed occurrence linked to the subject, no wording's check comes out confirmed:
      another's wins over it, and its own is not one. */
  lemma RefusalWins(os: seq<Occurrence>, links: set<Key>, key: Key)
    requires OnePerKey(os) && Refusing(os, links) && Recorded(os, key).Some?
    ensures !OutcomeOf(os, links, key).Confirmed?
  {
    LatestIsThere(os, links);
    RecordedIs(os, key);
    var latest := LatestUnconfirmed(os, links).value;
    if latest.key == key {
      SameOccurrence(os, latest, Occurrence(key, Recorded(os, key).value));
    }
  }

  lemma DecisionsKeepRefusal(os: seq<Occurrence>, key: Key, verdict: Verdict, links: set<Key>, more: set<Key>)
    requires OnePerKey(os) && links <= more
    ensures OnePerKey(WithDecision(os, key, verdict))
    ensures Refusing(os, links) ==> Refusing(WithDecision(os, key, verdict), more)
  {
    RecordedIs(os, key);
    var decided := WithDecision(os, key, verdict);
    forall i, j | 0 <= i < j < |decided| ensures decided[i].key != decided[j].key {
      if j == |os| { assert os[i] in os; }
    }
    if Refusing(os, links) {
      var o :| o in os && o.key in links && !o.verdict.Confirmed?;
      assert o in decided;
    }
  }

  lemma LinksKeepRefusal(os: seq<Occurrence>, links: set<Key>, more: set<Key>)
    requires Refusing(os, links) && links <= more
    ensures Refusing(os, more)
  {
    var o :| o in os && o.key in links && !o.verdict.Confirmed?;
    assert o.key in more;
  }

  /** Whether a call returned a confirmation by this event. */
  predicate Confirms(s: Subject, k: Subject, i: nat) {
    i < |s.calls| && i < |k.calls| && !s.calls[i].phase.Returned? && k.calls[i].phase == Returned(Confirmed)
  }

  lemma EventsKeepOnePerKey(s: Subject, e: Event)
    requires OnePerKey(s.occurrences)
    ensures OnePerKey(Apply(s, e).occurrences)
    ensures Refusing(s.occurrences, s.links) ==> Refusing(Apply(s, e).occurrences, Apply(s, e).links)
  {
    match e
    case Decide(c, verdict, routed) =>
      if c < |s.calls| {
        DecisionsKeepRefusal(s.occurrences, s.calls[c].key, verdict, s.links, if routed then s.links + {s.calls[c].key} else s.links);
      }
    case Link(c) =>
      if c < |s.calls| && Refusing(s.occurrences, s.links) { LinksKeepRefusal(s.occurrences, s.links, s.links + {s.calls[c].key}); }
    case Elsewhere(key, verdict, linked) =>
      DecisionsKeepRefusal(s.occurrences, key, verdict, s.links, if linked then s.links + {key} else s.links);
    case _ =>
  }

  lemma EventConfirmsNothing(s: Subject, e: Event, i: nat)
    requires OnePerKey(s.occurrences) && Refusing(s.occurrences, s.links)
    ensures !Confirms(s, Apply(s, e), i)
  {
    match e
    case Link(c) =>
      if c < |s.calls| && s.calls[c].phase.Decided? && Recorded(s.occurrences, s.calls[c].key).Some? {
        LinksKeepRefusal(s.occurrences, s.links, s.links + {s.calls[c].key});
        RefusalWins(s.occurrences, s.links + {s.calls[c].key}, s.calls[c].key);
      }
    case Begin(_) => LatestIsThere(s.occurrences, s.links);
    case _ =>
  }

  /** No call of the run comes back confirmed. */
  predicate NothingConfirmed(s: Subject, run: Run)
    decreases run
  {
    match run
    case End => true
    case Then(e, rest) =>
      (forall i :: 0 <= i < |s.calls| ==> !Confirms(s, Apply(s, e), i)) && NothingConfirmed(Apply(s, e), rest)
  }

  /** Refusals are sticky: once a linked occurrence of the subject was refused, uncertain or failed,
      nothing that returns afterwards is a confirmation, whether reworded, replayed, already waiting or
      deciding, or racing another control plane. */
  lemma {:induction false} RefusalsStick(s: Subject, run: Run)
    requires OnePerKey(s.occurrences) && Refusing(s.occurrences, s.links)
    ensures NothingConfirmed(s, run)
    decreases run
  {
    match run
    case End =>
    case Then(e, rest) =>
      forall i: nat | i < |s.calls| ensures !Confirms(s, Apply(s, e), i) { EventConfirmsNothing(s, e, i); }
      EventsKeepOnePerKey(s, e);
      RefusalsStick(Apply(s, e), rest);
  }

  lemma {:induction false} RunsKeepOnePerKey(s: Subject, run: Run)
    requires OnePerKey(s.occurrences)
    ensures OnePerKey(After(s, run).occurrences)
    decreases run
  {
    match run
    case End =>
    case Then(e, rest) =>
      EventsKeepOnePerKey(s, e);
      RunsKeepOnePerKey(Apply(s, e), rest);
  }

  /** The same from the first call of a subject on, whatever happened before the refusal. */
  lemma RefusalsStickFromStart(before: Run, run: Run)
    requires Refusing(After(NONE, before).occurrences, After(NONE, before).links)
    ensures NothingConfirmed(After(NONE, before), run)
  {
    RunsKeepOnePerKey(NONE, before);
    RefusalsStick(After(NONE, before), run);
  }

  // ----- what calls come to -----

  /** Every outcome is backed: a confirmation by the call's own occurrence, which confirmed and is linked;
      anything else by a linked occurrence that did not confirm. */
  predicate Backed(s: Subject) {
    forall i :: 0 <= i < |s.calls| && s.calls[i].phase.Returned? ==>
      if s.calls[i].phase.outcome.Confirmed?
      then Recorded(s.occurrences, s.calls[i].key) == Some(Confirmed) && s.calls[i].key in s.links
      else Refusing(s.occurrences, s.links)
  }

  lemma RecordedStays(os: seq<Occurrence>, key: Key, verdict: Verdict, other: Key)
    ensures Recorded(os, other).Some? ==> Recorded(WithDecision(os, key, verdict), other) == Recorded(os, other)
  {
  }

  lemma RecordsStayBacked(s: Subject, os: seq<Occurrence>, links: set<Key>)
    requires Backed(s) && s.links <= links
    requires forall key :: Recorded(s.occurrences, key).Some? ==> Recorded(os, key) == Recorded(s.occurrences, key)
    requires Refusing(s.occurrences, s.links) ==> Refusing(os, links)
    ensures Backed(s.(occurrences := os, links := links))
  {
  }

  lemma BeginStaysBacked(s: Subject, i: nat)
    requires Backed(s)
    ensures Backed(Apply(s, Begin(i)))
  {
    LatestIsThere(s.occurrences, s.links);
  }

  lemma LinkStaysBacked(s: Subject, i: nat)
    requires OnePerKey(s.occurrences) && Backed(s)
    ensures Backed(Apply(s, Link(i)))
  {
    if i < |s.calls| && s.calls[i].phase.Decided? && Recorded(s.occurrences, s.calls[i].key).Some? {
      var key, links := s.calls[i].key, s.links + {s.calls[i].key};
      if Refusing(s.occurrences, s.links) { LinksKeepRefusal(s.occurrences, s.links, links); }
      RecordsStayBacked(s, s.occurrences, links);
      LatestIsThere(s.occurrences, links);
      RecordedIs(s.occurrences, key);
      var own := Occurrence(key, Recorded(s.occurrences, key).value);
      assert !own.verdict.Confirmed? ==> own in s.occurrences && own.key in links;
    }
  }

  lemma DecisionStaysBacked(s: Subject, key: Key, verdict: Verdict, links: set<Key>)
    requires OnePerKey(s.occurrences) && Backed(s) && s.links <= links
    ensures Backed(s.(occurrences := WithDecision(s.occurrences, key, verdict), links := links))
  {
    DecisionsKeepRefusal(s.occurrences, key, verdict, s.links, links);
    forall other | Recorded(s.occurrences, other).Some?
      ensures Recorded(WithDecision(s.occurrences, key, verdict), other) == Recorded(s.occurrences, other)
    {
      RecordedStays(s.occurrences, key, verdict, other);
    }
    RecordsStayBacked(s, WithDecision(s.occurrences, key, verdict), links);
  }

  lemma EventsStayBacked(s: Subject, e: Event)
    requires OnePerKey(s.occurrences) && Backed(s)
    ensures Backed(Apply(s, e))
  {
    match e
    case Begin(i) => BeginStaysBacked(s, i);
    case Decide(i, verdict, routed) =>
      if i < |s.calls| {
        DecisionStaysBacked(s, s.calls[i].key, verdict, if routed then s.links + {s.calls[i].key} else s.links);
      }
    case Link(i) => LinkStaysBacked(s, i);
    case Elsewhere(key, verdict, linked) => DecisionStaysBacked(s, key, verdict, if linked then s.links + {key} else s.links);
    case _ =>
  }

  lemma {:induction false} RunsStayBacked(s: Subject, run: Run)
    requires OnePerKey(s.occurrences) && Backed(s)
    ensures Backed(After(s, run))
    decreases run
  {
    match run
    case End =>
    case Then(e, rest) =>
      EventsStayBacked(s, e);
      EventsKeepOnePerKey(s, e);
      RunsStayBacked(Apply(s, e), rest);
  }

  /** Over every run, a call that returned a confirmation has its own occurrence, which confirmed, linked
      to the subject; and where a call returned anything else, an occurrence that did not confirm is. */
  lemma OutcomesAreBacked(run: Run, i: nat)
    requires i < |After(NONE, run).calls| && After(NONE, run).calls[i].phase.Returned?
    ensures var s := After(NONE, run);
      var c := s.calls[i];
      if c.phase.outcome.Confirmed? then c.key in s.links && Occurrence(c.key, Confirmed) in s.occurrences
      else exists o :: o in s.occurrences && o.key in s.links && !o.verdict.Confirmed?
  {
    RunsStayBacked(NONE, run);
    RecordedIs(After(NONE, run).occurrences, After(NONE, run).calls[i].key);
  }

  /** Where a call stands after an event that concerns it: its turn comes once the call before it has
      settled; it inherits a sibling's verdict, or is decided, and then linked; and a crash or an
      exception ends it. */
  lemma CallMovesOn(s: Subject, i: nat, verdict: Verdict)
    requires i < |s.calls|
    ensures s.calls[i].phase == Waiting && Ready(s, i) && !Refusing(s.occurrences, s.links) ==>
      Apply(s, Begin(i)).calls[i].phase == Deciding
    ensures s.calls[i].phase == Deciding ==>
      && Apply(s, Decide(i, verdict, false)).calls[i].phase == Decided && Apply(s, Decide(i, verdict, false)).links == s.links
      && s.calls[i].key in Apply(s, Decide(i, verdict, true)).links
    ensures s.calls[i].phase == Decided && Recorded(s.occurrences, s.calls[i].key).Some? ==>
      Apply(s, Link(i)).calls[i].phase.Returned? && s.calls[i].key in Apply(s, Link(i)).links
    ensures s.calls[i].phase in {Deciding, Decided} ==> Apply(s, Throw(i)).calls[i].phase == Threw
    ensures !s.calls[i].phase.Returned? ==> Apply(s, Crash).calls[i].phase == Threw
  {
    LatestIsThere(s.occurrences, s.links);
  }

  /** A decision elsewhere is recorded for its wording, unless that was decided before, and linked if it was. */
  lemma ElsewhereCounts(s: Subject, key: Key, verdict: Verdict, linked: bool)
    ensures var k := Apply(s, Elsewhere(key, verdict, linked));
      && (exists o :: o in k.occurrences && o.key == key)
      && (if exists o :: o in s.occurrences && o.key == key then k.occurrences == s.occurrences
          else k.occurrences == s.occurrences + [Occurrence(key, verdict)])
      && k.links == (if linked then s.links + {key} else s.links) && k.calls == s.calls
  {
    RecordedIs(s.occurrences, key);
    RecordedIs(WithDecision(s.occurrences, key, verdict), key);
    RecordedAfter(s.occurrences, key, verdict);
  }

  lemma RecordedAfter(os: seq<Occurrence>, key: Key, verdict: Verdict)
    ensures Recorded(WithDecision(os, key, verdict), key).Some?
  {
  }

  // ----- a refusal that was never linked -----

  /** A wording that has no occurrence yet. */
  function Fresh(os: seq<Occurrence>): Key {
    if os == [] then "x" else Fresh(os[..|os| - 1]) + os[|os| - 1].key + "x"
  }

  lemma {:induction false} FreshIsLonger(os: seq<Occurrence>)
    ensures forall o :: o in os ==> |o.key| < |Fresh(os)|
    decreases |os|
  {
    if os != [] {
      FreshIsLonger(os[..|os| - 1]);
      assert os == os[..|os| - 1] + [os[|os| - 1]];
    }
  }

  /** After a restart, a new wording is asked and decided. */
  function AskedAgain(s: Subject): Run {
    var n := |s.calls|;
    Then(Crash, Then(Arrive(Fresh(s.occurrences)), Then(Begin(n), Then(Decide(n, Confirmed, false), Then(Link(n), End)))))
  }

  lemma DecidedThenLinked(s: Subject, key: Key)
    requires !Refusing(s.occurrences, s.links) && Recorded(s.occurrences, key).None? && OnePerKey(s.occurrences)
    ensures var os := WithDecision(s.occurrences, key, Confirmed);
      Recorded(os, key) == Some(Confirmed) && OutcomeOf(os, s.links + {key}, key).Confirmed?
  {
    var os := s.occurrences + [Occurrence(key, Confirmed)];
    RecordedIs(s.occurrences, key);
    LatestIsThere(os, s.links + {key});
    forall o | o in os && o.key in s.links + {key} ensures o.verdict.Confirmed? {
      assert o in s.occurrences ==> o.key in s.links;
    }
  }

  lemma DecidedConfirms(s: Subject, n: nat)
    requires OnePerKey(s.occurrences) && !Refusing(s.occurrences, s.links)
    requires n < |s.calls| && s.calls[n].phase.Deciding? && Recorded(s.occurrences, s.calls[n].key).None?
    ensures !NothingConfirmed(s, Then(Decide(n, Confirmed, false), Then(Link(n), End)))
  {
    var k := Apply(s, Decide(n, Confirmed, false));
    DecidedThenLinked(s, s.calls[n].key);
    assert k.occurrences == WithDecision(s.occurrences, s.calls[n].key, Confirmed);
    assert Confirms(k, Apply(k, Link(n)), n);
    assert !NothingConfirmed(k, Then(Link(n), End));
  }

  lemma AskedAgainConfirms(s: Subject)
    requires OnePerKey(s.occurrences) && !Refusing(s.occurrences, s.links)
    ensures !NothingConfirmed(s, AskedAgain(s))
  {
    var n, key := |s.calls|, Fresh(s.occurrences);
    FreshIsLonger(s.occurrences);
    RecordedIs(s.occurrences, key);
    LatestIsThere(s.occurrences, s.links);
    var k := Apply(Apply(s, Crash), Arrive(key));
    assert Ready(k, n) && Sibling(k.occurrences, k.links, key).None?;
    DecidedConfirms(Apply(k, Begin(n)), n);
    assert !NothingConfirmed(k, Then(Begin(n), Then(Decide(n, Confirmed, false), Then(Link(n), End))));
  }

  /** Exactly when a subject can no longer be confirmed: when an occurrence that did not confirm is
      linked to it. */
  lemma RefusalSticksExactly(before: Run)
    ensures var s := After(NONE, before);
      Refusing(s.occurrences, s.links) <==> forall run :: NothingConfirmed(s, run)
  {
    var s := After(NONE, before);
    RunsKeepOnePerKey(NONE, before);
    if Refusing(s.occurrences, s.links) {
      forall run ensures NothingConfirmed(s, run) { RefusalsStick(s, run); }
    } else {
      AskedAgainConfirms(s);
    }
  }

  /** A process that ends between a refusal and its link leaves one that does not stick: a reworded
      request is confirmed afterwards. */
  lemma UnlinkedRefusalIsLost(key: Key)
    ensures var s := After(NONE, Then(Arrive(key), Then(Begin(0), Then(Decide(0, Refused, false), Then(Crash, End)))));
      s.occurrences == [Occurrence(key, Refused)] && !NothingConfirmed(s, AskedAgain(s))
  {
    var a := Apply(NONE, Arrive(key));
    var b := Apply(a, Begin(0));
    assert Ready(a, 0) && b.calls[0].phase.Deciding?;
    var c := Apply(b, Decide(0, Refused, false));
    assert c.occurrences == [Occurrence(key, Refused)] && c.links == {};
    var s := Apply(c, Crash);
    assert After(c, Then(Crash, End)) == s;
    assert After(b, Then(Decide(0, Refused, false), Then(Crash, End))) == s;
    AskedAgainConfirms(s);
  }
}
