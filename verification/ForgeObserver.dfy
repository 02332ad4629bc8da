/** The forge observer: reads of pull requests under a rate limit, a concurrency limit and a bounded
    queue. A read passes through its phases in separate steps, as its promise does. */
module ForgeObserver {

  type Key = string
  type Time = int

  const MIN_INTERVAL := 30_000
  const BACKGROUND_INTERVAL := 300_000
  const REFS_PER_REQUEST := 16
  const CONCURRENT_REQUESTS := 2
  const MAX_QUEUED_READS := 8
  const MAX_REMEMBERED := 4_096

  /** Waiting for a slot; asking its runner; answered, its slot passed on; settled, its keys released;
      or dropped from the queue when the observer was disposed. */
  datatype Phase = Queued | Reading | Answered | Settled | Dropped

  datatype Read = Read(keys: seq<Key>, refresh: bool, phase: Phase)

  /** `issued` are all reads ever asked for, named by their position; `finished`, when the last refresh
      read of a key settled, is a history that no operation issued. */
  datatype Observer = Observer(lastRead: map<Key, Time>, inFlight: map<Key, nat>, queue: seq<nat>, running: nat,
                               issued: seq<Read>, finished: map<Key, Time>)

  const IDLE: Observer := Observer(map[], map[], [], 0, [], map[])

  function WithPhase(issued: seq<Read>, id: nat, phase: Phase): seq<Read>
    requires id < |issued|
  {
    issued[id := issued[id].(phase := phase)]
  }

  /** A new read: it starts when a slot is free, and waits behind the others otherwise. */
  function Limited(s: Observer, keys: seq<Key>, refresh: bool): Observer {
    if s.running < CONCURRENT_REQUESTS
    then s.(running := s.running + 1, issued := s.issued + [Read(keys, refresh, Reading)])
    else s.(queue := s.queue + [|s.issued|], issued := s.issued + [Read(keys, refresh, Queued)])
  }

  /** A runner answered, failed or timed out: the slot goes to the read that waited longest. */
  function Answer(s: Observer, id: nat): Observer {
    if id >= |s.issued| || !s.issued[id].phase.Reading? then s
    else if s.queue == [] || s.queue[0] >= |s.issued|
    then s.(running := if s.running == 0 then 0 else s.running - 1, issued := WithPhase(s.issued, id, Answered))
    else s.(queue := s.queue[1..], issued := WithPhase(WithPhase(s.issued, id, Answered), s.queue[0], Reading))
  }

  function Touched(m: map<Key, Time>, keys: seq<Key>, at: Time): map<Key, Time> {
    map key | key in m.Keys + (set k | k in keys) :: if key in keys then at else m[key]
  }

  /** The refresh that asked takes notice: the interval of its keys runs from now. */
  function Settle(s: Observer, id: nat, now: Time): Observer {
    if id >= |s.issued| || !s.issued[id].phase.Answered? then s
    else
      var read := s.issued[id];
      var done := s.(issued := WithPhase(s.issued, id, Settled));
      if !read.refresh then done
      else done.(lastRead := Touched(s.lastRead, read.keys, now), finished := Touched(s.finished, read.keys, now),
                 inFlight := map key | key in s.inFlight && !(key in read.keys && s.inFlight[key] == id) :: s.inFlight[key])
  }

  predicate Rested(s: Observer, key: Key, now: Time) {
    key in s.lastRead ==> now - s.lastRead[key] >= MIN_INTERVAL
  }

  /** The refs of one group to read: each once, not in flight, and past its interval. */
  function DueRefs(s: Observer, now: Time, refs: seq<Key>): seq<Key> {
    if refs == [] then []
    else
      var before := DueRefs(s, now, refs[..|refs| - 1]);
      var key := refs[|refs| - 1];
      if key in refs[..|refs| - 1] || key in s.inFlight || !Rested(s, key, now) then before else before + [key]
  }

  function StartBatch(s: Observer, now: Time, keys: seq<Key>): Observer {
    var id := |s.issued|;
    Limited(s, keys, true).(lastRead := Touched(s.lastRead, keys, now),
                            inFlight := map key | key in s.inFlight.Keys + (set k | k in keys) :: if key in keys then id else s.inFlight[key])
  }

  /** The due refs, batch by batch, until the queue is full. */
  function StartBatches(s: Observer, now: Time, due: seq<Key>): Observer
    decreases |due|
  {
    if due == [] || |s.queue| >= MAX_QUEUED_READS then s
    else if |due| <= REFS_PER_REQUEST then StartBatch(s, now, due)
    else StartBatches(StartBatch(s, now, due[..REFS_PER_REQUEST]), now, due[REFS_PER_REQUEST..])
  }

  /** Forgets reads that no interval can hold back any more, once many are remembered. */
  function Trimmed(s: Observer, now: Time): Observer {
    if |s.lastRead| <= MAX_REMEMBERED then s
    else s.(lastRead := map key | key in s.lastRead && now - s.lastRead[key] < BACKGROUND_INTERVAL :: s.lastRead[key])
  }

  /** A refresh: each group of refs with a reader that can be asked, in turn. */
  function RefreshGroups(s: Observer, now: Time, groups: seq<seq<Key>>): Observer
    decreases |groups|
  {
    if groups == [] then s else RefreshGroups(StartBatches(s, now, DueRefs(s, now, groups[0])), now, groups[1..])
  }

  function Refresh(s: Observer, now: Time, groups: seq<seq<Key>>): Observer {
    RefreshGroups(Trimmed(s, now), now, groups)
  }

  function LimitedAll(s: Observer, batches: seq<seq<Key>>): Observer
    decreases |batches|
  {
    if batches == [] then s else LimitedAll(Limited(s, batches[0], false), batches[1..])
  }

  /** An authoritative read: all of its batches, or none when the queue could not hold them. */
  function ReadNow(s: Observer, batches: seq<seq<Key>>): Observer {
    if |s.queue| + |batches| > MAX_QUEUED_READS then s else LimitedAll(s, batches)
  }

  function DroppedAll(issued: seq<Read>, queue: seq<nat>): seq<Read> {
    seq(|issued|, i requires 0 <= i < |issued| => if i in queue then issued[i].(phase := Dropped) else issued[i])
  }

  function Dispose(s: Observer): Observer {
    s.(queue := [], issued := DroppedAll(s.issued, s.queue))
  }

  // ----- runs -----

  datatype Op =
    | RefreshOp(now: Time, groups: seq<seq<Key>>)
    | ReadNowOp(batches: seq<seq<Key>>)
    | AnswerOp(id: nat)
    | SettleOp(id: nat, now: Time)
    | DisposeOp

  function Apply(s: Observer, op: Op): Observer {
    match op
    case RefreshOp(now, groups) => Refresh(s, now, groups)
    case ReadNowOp(batches) => ReadNow(s, batches)
    case AnswerOp(id) => Answer(s, id)
    case SettleOp(id, now) => Settle(s, id, now)
    case DisposeOp => Dispose(s)
  }

  /** A run, with the clock after each operation; it never goes back. */
  datatype Run = End | Then(op: Op, rest: Run)

  function ClockAfter(clock: Time, op: Op): Time {
    match op
    case RefreshOp(now, _) => now
    case SettleOp(_, now) => now
    case _ => clock
  }

  predicate Timely(clock: Time, run: Run)
    decreases run
  {
    match run
    case End => true
    case Then(op, rest) => clock <= ClockAfter(clock, op) && Timely(ClockAfter(clock, op), rest)
  }

  function After(s: Observer, run: Run): Observer
    decreases run
  {
    match run
    case End => s
    case Then(op, rest) => After(Apply(s, op), rest)
  }

  // ----- what every step keeps -----

  /** The reads that hold a slot. */
  function Slots(issued: seq<Read>): set<nat> {
    set i: nat | i < |issued| && issued[i].phase.Reading?
  }

  predicate Begun(p: Phase) { p.Reading? || p.Answered? || p.Settled? }

  predicate Open(r: Read) { r.refresh && (r.phase.Queued? || r.phase.Reading? || r.phase.Answered?) }

  predicate Ascending(ids: seq<nat>) {
    forall i, j :: 0 <= i < j < |ids| ==> ids[i] < ids[j]
  }

  /** Slots and queue: bounded, work-conserving, and first come, first served. */
  ghost predicate Fair(s: Observer) {
    && s.running == |Slots(s.issued)| && s.running <= CONCURRENT_REQUESTS && |s.queue| <= MAX_QUEUED_READS
    && (s.queue != [] ==> s.running == CONCURRENT_REQUESTS)
    && Ascending(s.queue)
    && (forall q :: q in s.queue ==> q < |s.issued| && s.issued[q].phase.Queued?)
    && (forall i :: 0 <= i < |s.issued| && s.issued[i].phase.Queued? ==> i in s.queue)
    && (forall q, i :: q in s.queue && 0 <= i < |s.issued| && Begun(s.issued[i].phase) ==> i < q)
  }

  /** Every key of an unfinished refresh read names that read as the one in flight. */
  ghost predicate Exclusive(s: Observer) {
    forall i, key :: 0 <= i < |s.issued| && Open(s.issued[i]) && key in s.issued[i].keys ==> key in s.inFlight && s.inFlight[key] == i
  }

  /** A key that is not in flight rests since its last read finished, or is held back until it has. */
  predicate Resting(s: Observer, clock: Time) {
    forall key :: key in s.finished ==>
      && s.finished[key] <= clock
      && (key in s.inFlight || clock - s.finished[key] >= MIN_INTERVAL
          || (key in s.lastRead && s.finished[key] <= s.lastRead[key]))
  }

  ghost predicate Sound(s: Observer, clock: Time) {
    Fair(s) && Exclusive(s) && Resting(s, clock)
  }

  lemma SlotTaken(issued: seq<Read>, r: Read)
    ensures Slots(issued + [r]) == if r.phase.Reading? then Slots(issued) + {|issued|} else Slots(issued)
    ensures |Slots(issued + [r])| == |Slots(issued)| + if r.phase.Reading? then 1 else 0
  {
    assert Slots(issued + [r]) == if r.phase.Reading? then Slots(issued) + {|issued|} else Slots(issued);
  }

  lemma SlotChanged(issued: seq<Read>, id: nat, phase: Phase)
    requires id < |issued|
    ensures |Slots(WithPhase(issued, id, phase))| ==
      |Slots(issued)| - (if issued[id].phase.Reading? then 1 else 0) + (if phase.Reading? then 1 else 0)
  {
    var now := WithPhase(issued, id, phase);
    var others := Slots(issued) - {id};
    assert Slots(now) == if phase.Reading? then others + {id} else others;
    assert Slots(issued) == if issued[id].phase.Reading? then others + {id} else others;
  }

  lemma AppendedAscends(ids: seq<nat>, id: nat)
    requires Ascending(ids) && forall q :: q in ids ==> q < id
    ensures Ascending(ids + [id]) && forall q :: q in ids + [id] <==> q in ids || q == id
  {
    forall i, j | 0 <= i < j < |ids + [id]| ensures (ids + [id])[i] < (ids + [id])[j] {
      if j == |ids| { assert ids[i] in ids; }
    }
  }

  lemma LimitedIsFair(s: Observer, keys: seq<Key>, refresh: bool)
    requires Fair(s) && (s.running < CONCURRENT_REQUESTS || |s.queue| < MAX_QUEUED_READS)
    ensures Fair(Limited(s, keys, refresh))
  {
    if s.running < CONCURRENT_REQUESTS {
      SlotTaken(s.issued, Read(keys, refresh, Reading));
    } else {
      SlotTaken(s.issued, Read(keys, refresh, Queued));
      AppendedAscends(s.queue, |s.issued|);
    }
  }

  lemma AnswerIsFair(s: Observer, id: nat)
    requires Fair(s)
    ensures Fair(Answer(s, id))
  {
    if id < |s.issued| && s.issued[id].phase.Reading? {
      SlotChanged(s.issued, id, Answered);
      if s.queue != [] {
        assert s.queue[0] in s.queue;
        SlotChanged(WithPhase(s.issued, id, Answered), s.queue[0], Reading);
        NextIsFair(s, id);
      }
    }
  }

  lemma NextIsFair(s: Observer, id: nat)
    requires Fair(s) && id < |s.issued| && s.issued[id].phase.Reading? && s.queue != [] && s.queue[0] < |s.issued|
    requires |Slots(Answer(s, id).issued)| == s.running
    ensures Fair(Answer(s, id))
  {
    HeadIsLeast(s.queue);
  }

  lemma HeadIsLeast(ids: seq<nat>)
    requires ids != [] && Ascending(ids)
    ensures Ascending(ids[1..]) && ids[0] in ids && ids[0] !in ids[1..]
    ensures forall q :: q in ids[1..] ==> q in ids && ids[0] < q
    ensures forall q :: q in ids ==> q == ids[0] || q in ids[1..]
  {
    assert ids == [ids[0]] + ids[1..];
    forall q | q in ids[1..] ensures q in ids && ids[0] < q {
      var j :| 0 <= j < |ids[1..]| && ids[1..][j] == q;
      assert ids[j + 1] == q;
    }
  }

  lemma LimitedKeepsOthers(s: Observer, keys: seq<Key>, refresh: bool)
    ensures var k := Limited(s, keys, refresh);
      && |k.issued| == |s.issued| + 1 && k.issued[..|s.issued|] == s.issued
      && k.issued[|s.issued|].keys == keys && k.issued[|s.issued|].refresh == refresh
      && k.lastRead == s.lastRead && k.inFlight == s.inFlight && k.finished == s.finished
  {
  }

  lemma StartBatchIsSound(s: Observer, now: Time, keys: seq<Key>)
    requires Sound(s, now) && |s.queue| < MAX_QUEUED_READS
    requires forall key :: key in keys ==> key !in s.inFlight
    ensures Sound(StartBatch(s, now, keys), now)
  {
    StartBatchIsFair(s, now, keys);
    StartBatchKeepsFlights(s, now, keys);
    StartedRests(s, now, keys);
  }

  lemma StartBatchIsFair(s: Observer, now: Time, keys: seq<Key>)
    requires Fair(s) && |s.queue| < MAX_QUEUED_READS
    ensures Fair(StartBatch(s, now, keys))
  {
    LimitedIsFair(s, keys, true);
  }

  lemma StartBatchKeepsFlights(s: Observer, now: Time, keys: seq<Key>)
    requires Exclusive(s) && forall key :: key in keys ==> key !in s.inFlight
    ensures Exclusive(StartBatch(s, now, keys))
  {
    var k := StartBatch(s, now, keys);
    LimitedKeepsOthers(s, keys, true);
    forall i, key | 0 <= i < |k.issued| && Open(k.issued[i]) && key in k.issued[i].keys ensures key in k.inFlight && k.inFlight[key] == i {
      if i < |s.issued| {
        assert k.issued[i] == k.issued[..|s.issued|][i];
        assert key in s.inFlight && s.inFlight[key] == i;
      }
    }
  }

  lemma StartedRests(s: Observer, now: Time, keys: seq<Key>)
    requires Resting(s, now)
    ensures Resting(StartBatch(s, now, keys), now)
  {
    LimitedKeepsOthers(s, keys, true);
  }

  predicate AllNew(s: Observer, due: seq<Key>) {
    && (forall key :: key in due ==> key !in s.inFlight)
    && (forall i, j :: 0 <= i < j < |due| ==> due[i] != due[j])
  }

  lemma {:induction false} DueRefsAreNew(s: Observer, now: Time, refs: seq<Key>)
    ensures var due := DueRefs(s, now, refs);
      AllNew(s, due) && forall key :: key in due ==> key in refs && Rested(s, key, now)
    decreases |refs|
  {
    if refs != [] {
      DueRefsAreNew(s, now, refs[..|refs| - 1]);
    }
  }

  lemma {:induction false} StartBatchesAreSound(s: Observer, now: Time, due: seq<Key>)
    requires Sound(s, now) && AllNew(s, due)
    ensures Sound(StartBatches(s, now, due), now)
    decreases |due|
  {
    if due != [] && |s.queue| < MAX_QUEUED_READS {
      if |due| <= REFS_PER_REQUEST {
        StartBatchIsSound(s, now, due);
      } else {
        var batch, rest := due[..REFS_PER_REQUEST], due[REFS_PER_REQUEST..];
        StartBatchIsSound(s, now, batch);
        var k := StartBatch(s, now, batch);
        forall key | key in rest ensures key !in k.inFlight {
          var j :| 0 <= j < |rest| && rest[j] == key;
          assert due[REFS_PER_REQUEST + j] == key && key in due;
          assert forall i :: 0 <= i < |batch| ==> batch[i] == due[i] && due[i] != due[REFS_PER_REQUEST + j];
          assert key !in batch;
        }
        StartBatchesAreSound(k, now, rest);
      }
    }
  }

  lemma {:induction false} RefreshGroupsAreSound(s: Observer, now: Time, groups: seq<seq<Key>>)
    requires Sound(s, now)
    ensures Sound(RefreshGroups(s, now, groups), now)
    decreases |groups|
  {
    if groups != [] {
      DueRefsAreNew(s, now, groups[0]);
      StartBatchesAreSound(s, now, DueRefs(s, now, groups[0]));
      RefreshGroupsAreSound(StartBatches(s, now, DueRefs(s, now, groups[0])), now, groups[1..]);
    }
  }

  lemma TrimmedIsSound(s: Observer, clock: Time, now: Time)
    requires Sound(s, clock) && clock <= now
    ensures Sound(Trimmed(s, now), now)
  {
  }

  lemma {:induction false} LimitedAllIsSound(s: Observer, clock: Time, batches: seq<seq<Key>>)
    requires Sound(s, clock) && |s.queue| + |batches| <= MAX_QUEUED_READS
    ensures Sound(LimitedAll(s, batches), clock)
    decreases |batches|
  {
    if batches != [] {
      var k := Limited(s, batches[0], false);
      LimitedIsFair(s, batches[0], false);
      LimitedKeepsOthers(s, batches[0], false);
      forall i, key | 0 <= i < |k.issued| && Open(k.issued[i]) && key in k.issued[i].keys ensures key in k.inFlight && k.inFlight[key] == i {
        assert i < |s.issued| ==> k.issued[i] == k.issued[..|s.issued|][i];
      }
      LimitedAllIsSound(k, clock, batches[1..]);
    }
  }

  lemma SettleIsSound(s: Observer, id: nat, clock: Time, now: Time)
    requires Sound(s, clock) && clock <= now
    ensures Sound(Settle(s, id, now), now)
  {
    SettleIsFair(s, id, now);
    SettleKeepsFlights(s, id, now);
    SettleRests(s, id, clock, now);
  }

  lemma SettleIsFair(s: Observer, id: nat, now: Time)
    requires Fair(s)
    ensures Fair(Settle(s, id, now))
  {
    if id < |s.issued| && s.issued[id].phase.Answered? {
      SlotChanged(s.issued, id, Settled);
    }
  }

  lemma SettleRests(s: Observer, id: nat, clock: Time, now: Time)
    requires Resting(s, clock) && clock <= now
    ensures Resting(Settle(s, id, now), now)
  {
  }

  lemma SettleKeepsFlights(s: Observer, id: nat, now: Time)
    requires Exclusive(s)
    ensures Exclusive(Settle(s, id, now))
  {
    var k := Settle(s, id, now);
    forall i, key | 0 <= i < |k.issued| && Open(k.issued[i]) && key in k.issued[i].keys ensures key in k.inFlight && k.inFlight[key] == i {
      assert Open(s.issued[i]) && key in s.issued[i].keys;
    }
  }

  lemma AnswerIsSound(s: Observer, id: nat, clock: Time)
    requires Sound(s, clock)
    ensures Sound(Answer(s, id), clock)
  {
    AnswerIsFair(s, id);
    AnswerKeepsFlights(s, id);
  }

  lemma AnswerKeepsFlights(s: Observer, id: nat)
    requires Fair(s) && Exclusive(s)
    ensures Exclusive(Answer(s, id)) && Answer(s, id).(running := s.running, queue := s.queue, issued := s.issued) == s
  {
    var k := Answer(s, id);
    if s.queue != [] { assert s.queue[0] in s.queue; }
    forall i, key | 0 <= i < |k.issued| && Open(k.issued[i]) && key in k.issued[i].keys ensures key in k.inFlight && k.inFlight[key] == i {
      assert Open(s.issued[i]) && key in s.issued[i].keys;
    }
  }

  lemma DisposeIsSound(s: Observer, clock: Time)
    requires Sound(s, clock)
    ensures Sound(Dispose(s), clock)
  {
    var k := Dispose(s);
    forall i | 0 <= i < |s.issued| ensures k.issued[i].phase == (if s.issued[i].phase.Queued? then Dropped else s.issued[i].phase) {
      assert s.issued[i].phase.Queued? <==> i in s.queue;
    }
    assert Slots(k.issued) == Slots(s.issued);
    forall i, key | 0 <= i < |k.issued| && Open(k.issued[i]) && key in k.issued[i].keys ensures key in k.inFlight && k.inFlight[key] == i {
      assert Open(s.issued[i]) && key in s.issued[i].keys;
    }
  }

  lemma OpsAreSound(s: Observer, clock: Time, op: Op)
    requires Sound(s, clock) && clock <= ClockAfter(clock, op)
    ensures Sound(Apply(s, op), ClockAfter(clock, op))
  {
    match op
    case RefreshOp(now, groups) =>
      TrimmedIsSound(s, clock, now);
      RefreshGroupsAreSound(Trimmed(s, now), now, groups);
    case ReadNowOp(batches) => if |s.queue| + |batches| <= MAX_QUEUED_READS { LimitedAllIsSound(s, clock, batches); }
    case AnswerOp(id) => AnswerIsSound(s, id, clock);
    case SettleOp(id, now) => SettleIsSound(s, id, clock, now);
    case DisposeOp => DisposeIsSound(s, clock);
  }

  function FinalClock(clock: Time, run: Run): Time
    decreases run
  {
    match run
    case End => clock
    case Then(op, rest) => FinalClock(ClockAfter(clock, op), rest)
  }

  lemma {:induction false} RunsAreSound(s: Observer, clock: Time, run: Run)
    requires Sound(s, clock) && Timely(clock, run)
    ensures Sound(After(s, run), FinalClock(clock, run))
    decreases run
  {
    match run
    case End =>
    case Then(op, rest) =>
      OpsAreSound(s, clock, op);
      RunsAreSound(Apply(s, op), ClockAfter(clock, op), rest);
  }

  lemma IdleIsSound(clock: Time)
    ensures Sound(IDLE, clock)
  {
    assert Slots([]) == {};
  }

  /** In every reachable state at most two reads hold a slot and at most eight wait; a read waits only
      while every slot is taken; and whatever began was asked for before everything that waits. */
  lemma BoundedAndFair(clock: Time, run: Run, s: Observer)
    requires Timely(clock, run) && s == After(IDLE, run)
    ensures s.running == |Slots(s.issued)| <= 2 && |s.queue| <= 8
    ensures s.queue != [] ==> s.running == 2
    ensures forall q, i :: q in s.queue && 0 <= i < |s.issued| && Begun(s.issued[i].phase) ==> i < q
  {
    IdleIsSound(clock);
    RunsAreSound(IDLE, clock, run);
  }

  /** Two refresh reads of one pull request never overlap. */
  lemma RefreshesNeverOverlap(clock: Time, run: Run, s: Observer, i: nat, j: nat, key: Key)
    requires Timely(clock, run) && s == After(IDLE, run)
    requires i < |s.issued| && j < |s.issued| && Open(s.issued[i]) && Open(s.issued[j])
    requires key in s.issued[i].keys && key in s.issued[j].keys
    ensures i == j
  {
    IdleIsSound(clock);
    RunsAreSound(IDLE, clock, run);
    OneFlight(s, i, key);
    OneFlight(s, j, key);
  }

  lemma OneFlight(s: Observer, i: nat, key: Key)
    requires Exclusive(s) && i < |s.issued| && Open(s.issued[i]) && key in s.issued[i].keys
    ensures key in s.inFlight && s.inFlight[key] == i
  {
  }

  // ----- the interval between reads -----

  /** What a refresh adds rests: no key it reads is in flight, or was read within the interval. */
  predicate NewRest(s: Observer, k: Observer, now: Time) {
    && |s.issued| <= |k.issued| && k.finished == s.finished && s.inFlight.Keys <= k.inFlight.Keys
    && forall i, key :: |s.issued| <= i < |k.issued| && key in k.issued[i].keys ==>
      key !in s.inFlight && (key in s.finished ==> now - s.finished[key] >= MIN_INTERVAL)
  }

  lemma NewRestTwice(s: Observer, k: Observer, j: Observer, now: Time)
    requires NewRest(s, k, now) && NewRest(k, j, now) && j.issued[..|k.issued|] == k.issued
    ensures NewRest(s, j, now)
  {
    forall i, key | |s.issued| <= i < |j.issued| && key in j.issued[i].keys
      ensures key !in s.inFlight && (key in s.finished ==> now - s.finished[key] >= MIN_INTERVAL)
    {
      if i < |k.issued| { assert j.issued[i] == j.issued[..|k.issued|][i]; }
    }
  }

  predicate AllRest(s: Observer, now: Time, due: seq<Key>) {
    forall key :: key in due ==> key !in s.inFlight && (key in s.finished ==> now - s.finished[key] >= MIN_INTERVAL)
  }

  lemma StartBatchRests(s: Observer, now: Time, keys: seq<Key>)
    requires AllRest(s, now, keys)
    ensures var k := StartBatch(s, now, keys); NewRest(s, k, now) && k.issued[..|s.issued|] == s.issued
  {
    LimitedKeepsOthers(s, keys, true);
  }

  lemma {:induction false} StartBatchesRest(s: Observer, now: Time, due: seq<Key>)
    requires AllRest(s, now, due) && AllNew(s, due)
    ensures var k := StartBatches(s, now, due); NewRest(s, k, now) && k.issued[..|s.issued|] == s.issued
    decreases |due|
  {
    if due != [] && |s.queue| < MAX_QUEUED_READS {
      if |due| <= REFS_PER_REQUEST {
        StartBatchRests(s, now, due);
      } else {
        var batch, rest := due[..REFS_PER_REQUEST], due[REFS_PER_REQUEST..];
        var k := StartBatch(s, now, batch);
        StartBatchRests(s, now, batch);
        LimitedKeepsOthers(s, batch, true);
        RestIsNew(s, k, now, due, batch, rest);
        StartBatchesRest(k, now, rest);
        var j := StartBatches(k, now, rest);
        NewRestTwice(s, k, j, now);
        assert j.issued[..|s.issued|] == j.issued[..|k.issued|][..|s.issued|];
      }
    }
  }

  /** The refs after a batch are still new and rested once it started. */
  lemma RestIsNew(s: Observer, k: Observer, now: Time, due: seq<Key>, batch: seq<Key>, rest: seq<Key>)
    requires AllRest(s, now, due) && AllNew(s, due) && due == batch + rest
    requires k.finished == s.finished && k.inFlight.Keys == s.inFlight.Keys + (set key | key in batch)
    ensures AllRest(k, now, rest) && AllNew(k, rest)
  {
    forall j | 0 <= j < |rest| ensures rest[j] !in k.inFlight && rest[j] in due {
      assert due[|batch| + j] == rest[j];
      assert forall i :: 0 <= i < |batch| ==> batch[i] == due[i] && due[i] != due[|batch| + j];
    }
    forall i, j | 0 <= i < j < |rest| ensures rest[i] != rest[j] {
      assert due[|batch| + i] == rest[i] && due[|batch| + j] == rest[j];
    }
  }

  lemma DueRefsRest(s: Observer, now: Time, refs: seq<Key>)
    requires Resting(s, now)
    ensures AllRest(s, now, DueRefs(s, now, refs)) && AllNew(s, DueRefs(s, now, refs))
  {
    DueRefsAreNew(s, now, refs);
  }

  lemma {:induction false} GroupsRest(s: Observer, now: Time, groups: seq<seq<Key>>)
    requires Sound(s, now)
    ensures var k := RefreshGroups(s, now, groups); NewRest(s, k, now) && k.issued[..|s.issued|] == s.issued
    decreases |groups|
  {
    if groups != [] {
      var due := DueRefs(s, now, groups[0]);
      var k := StartBatches(s, now, due);
      DueRefsRest(s, now, groups[0]);
      StartBatchesRest(s, now, due);
      StartBatchesAreSound(s, now, due);
      GroupsRest(k, now, groups[1..]);
      var j := RefreshGroups(k, now, groups[1..]);
      NewRestTwice(s, k, j, now);
      assert j.issued[..|s.issued|] == j.issued[..|k.issued|][..|s.issued|];
    }
  }

  /** In every reachable state a refresh starts or queues reads only of pull requests that no refresh
      is reading, and whose last read finished at least the interval before, however long that read
      had waited and however many reads were forgotten meanwhile. */
  lemma RefreshWaitsOutInterval(clock: Time, run: Run, s: Observer, now: Time, groups: seq<seq<Key>>)
    requires Timely(clock, run) && s == After(IDLE, run) && FinalClock(clock, run) <= now
    ensures NewRest(s, Refresh(s, now, groups), now)
  {
    IdleIsSound(clock);
    RunsAreSound(IDLE, clock, run);
    TrimmedIsSound(s, FinalClock(clock, run), now);
    GroupsRest(Trimmed(s, now), now, groups);
  }

  // ----- the observer's own maps and queue -----

  class CampaignForgeObserver {
    var lastRead: map<Key, Time>
    var inFlight: map<Key, nat>
    var queue: seq<nat>
    var running: nat
    var issued: seq<Read>
    ghost var finished: map<Key, Time>

    ghost function Now(): Observer
      reads this
    {
      Observer(lastRead, inFlight, queue, running, issued, finished)
    }

    constructor ()
      ensures Now() == IDLE
    {
      lastRead, inFlight, queue, running, issued, finished := map[], map[], [], 0, [], map[];
    }

    /** Starts a read, or queues it behind the others. */
    method StartOrQueue(keys: seq<Key>, refresh: bool) returns (id: nat)
      modifies this
      ensures Now() == Limited(old(Now()), keys, refresh) && id == |old(issued)|
    {
      id := |issued|;
      if running < CONCURRENT_REQUESTS {
        running := running + 1;
        issued := issued + [Read(keys, refresh, Reading)];
      } else {
        queue := queue + [id];
        issued := issued + [Read(keys, refresh, Queued)];
      }
    }

    /** The refs of one group to read now. */
    method FindDue(now: Time, refs: seq<Key>) returns (due: seq<Key>)
      ensures due == DueRefs(Now(), now, refs)
    {
      due := [];
      var seen: set<Key> := {};
      for i := 0 to |refs|
        invariant due == DueRefs(Now(), now, refs[..i])
        invariant forall key :: key in seen <==> key in refs[..i]
      {
        var key := refs[i];
        assert refs[..i + 1][..i] == refs[..i] && refs[..i + 1][i] == key;
        if key !in seen {
          seen := seen + {key};
          if key !in inFlight && (key !in lastRead || now - lastRead[key] >= MIN_INTERVAL) {
            due := due + [key];
          }
        }
      }
      assert refs[..|refs|] == refs;
    }

    method BeginBatch(now: Time, keys: seq<Key>)
      modifies this
      ensures Now() == StartBatch(old(Now()), now, keys)
    {
      lastRead := Touched(lastRead, keys, now);
      ghost var flights := inFlight;
      var id := StartOrQueue(keys, true);
      inFlight := map key | key in inFlight.Keys + (set k | k in keys) :: if key in keys then id else inFlight[key];
    }

    /** Reads one group's due refs, batch by batch, and drops what the full queue cannot take. */
    method RefreshGroup(now: Time, refs: seq<Key>)
      modifies this
      ensures Now() == StartBatches(old(Now()), now, DueRefs(old(Now()), now, refs))
    {
      var due := FindDue(now, refs);
      ghost var all := StartBatches(Now(), now, due);
      var start := 0;
      while start < |due|
        invariant start <= |due|
        invariant all == StartBatches(Now(), now, due[start..])
        decreases |due| - start
      {
        if |queue| >= MAX_QUEUED_READS {
          return;
        }
        var end := if start + REFS_PER_REQUEST < |due| then start + REFS_PER_REQUEST else |due|;
        var batch := due[start..end];
        if end < |due| {
          assert due[start..][..REFS_PER_REQUEST] == batch && due[start..][REFS_PER_REQUEST..] == due[end..];
        } else {
          assert due[start..] == batch && due[end..] == [];
        }
        BeginBatch(now, batch);
        start := end;
      }
    }

    /** A read's runner answered: its slot goes to the read that waited longest. */
    method ReadAnswered(id: nat)
      requires id < |issued| && issued[id].phase.Reading? && running > 0
      requires queue != [] ==> queue[0] < |issued|
      modifies this
      ensures Now() == Answer(old(Now()), id)
    {
      running := running - 1;
      issued := issued[id := issued[id].(phase := Answered)];
      if queue != [] {
        var next := queue[0];
        queue := queue[1..];
        running := running + 1;
        issued := issued[next := issued[next].(phase := Reading)];
      }
    }
  }
}
