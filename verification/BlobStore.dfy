/** Publication of one content-addressed file by any number of concurrent calls of `put` and
    `putDurable`, one file-system step at a time. Any step can fail, and any call can be cut by a
    crash between two steps. */
module BlobStore {
  import opened Options

  newtype Byte = x: int | 0 <= x < 256
  type Bytes = seq<Byte>
  type Key = string

  /** The content digest. Nothing is assumed of it but that it is a function. */
  type Digest = Bytes -> Key

  type Caller = nat

  datatype Kind = Put | PutDurable

  /** Where a call is. `Cleaning` removes its temporary file before it throws; `Raised` says whether
      that failed and left the file behind. */
  datatype Phase =
    | Checking | Opening | Writing(written: nat) | Syncing | Hooking | Linking
    | LinkRefused | Comparing | Unlinking(next: AfterUnlink) | Confirming | Adopting
    | Cleaning | Returned | Raised(leftBehind: bool) | Crashed

  /** What follows the removal of the temporary file: the call's own link was made, another's was
      compared with it, or another's is to be adopted. */
  datatype AfterUnlink = OwnLink | Compared | Adopted

  datatype Call = Call(kind: Kind, bytes: Bytes, phase: Phase, hooked: bool)

  /** `files` are inodes, one for each temporary file ever created, named after its call; `temps` the
      temporary names that exist, and `final` the inode that the content path names. */
  datatype Disk = Disk(calls: map<Caller, Call>, files: map<Caller, Bytes>, temps: set<Caller>, final: Option<Caller>)

  const EMPTY: Disk := Disk(map[], map[], {}, None)

  datatype Event =
    | Begin(caller: Caller, kind: Kind, bytes: Bytes)
    | Advance(caller: Caller, ok: bool, amount: nat)
    | Crash(caller: Caller)
    | Delete

  predicate Finished(p: Phase) { p.Returned? || p.Raised? || p.Crashed? }

  function At(s: Disk, c: Caller, phase: Phase): Disk
    requires c in s.calls
  {
    s.(calls := s.calls[c := s.calls[c].(phase := phase)])
  }

  /** What the content path holds. */
  function Content(s: Disk): Option<Bytes> {
    if s.final.Some? && s.final.value in s.files then Some(s.files[s.final.value]) else None
  }

  /** The stored bytes have the caller's size and the key's digest. */
  predicate Verifies(s: Disk, h: Digest, key: Key, bytes: Bytes) {
    Content(s).Some? && |Content(s).value| == |bytes| && h(Content(s).value) == key
  }

  /** What a call accepts of a file that another call published: `put` compares bytes as well. */
  predicate Accepts(s: Disk, h: Digest, key: Key, call: Call) {
    Verifies(s, h, key, call.bytes) && (call.kind.Put? ==> Content(s).value == call.bytes)
  }

  /** The last look before a call returns: `put` reads the file back, `putDurable` checks its size. */
  predicate Confirms(s: Disk, h: Digest, key: Key, call: Call) {
    Content(s).Some? && |Content(s).value| == |call.bytes| && (call.kind.Put? ==> h(Content(s).value) == key)
  }

  /** The phases before a call's link. */
  predicate Unlinked(p: Phase) {
    p.Checking? || p.Opening? || p.Writing? || p.Syncing? || p.Hooking? || p.Linking?
  }

  /** The next part of the bytes, or what follows the last. */
  function Write(s: Disk, c: Caller, ok: bool, amount: nat): Disk
    requires c in s.calls && s.calls[c].phase.Writing?
  {
    var call, written := s.calls[c], s.calls[c].phase.written;
    if written >= |call.bytes| then At(s, c, if ok then Syncing else Cleaning)
    else if !ok then At(s, c, Cleaning)
    else
      var total := if written + amount < |call.bytes| then written + amount else |call.bytes|;
      At(s.(files := s.files[c := call.bytes[..total]]), c, Writing(total))
  }

  /** The steps that write the temporary file and link it. */
  function Prepare(s: Disk, c: Caller, ok: bool, amount: nat): Disk
    requires c in s.calls && Unlinked(s.calls[c].phase)
  {
    var call := s.calls[c];
    match call.phase
    case Checking => At(s, c, if !ok then Raised(false) else if s.final.Some? then Adopting else Opening)
    case Opening => if !ok then At(s, c, Cleaning) else At(s.(files := s.files[c := []], temps := s.temps + {c}), c, Writing(0))
    case Writing(_) => Write(s, c, ok, amount)
    case Syncing => At(s, c, if !ok then Cleaning else if call.kind.PutDurable? then Hooking else Linking)
    case Hooking =>
      if !ok then At(s, c, Cleaning) else s.(calls := s.calls[c := call.(phase := Linking, hooked := true)])
    case Linking => if ok && s.final.None? then At(s.(final := Some(c)), c, Unlinking(OwnLink)) else At(s, c, LinkRefused)
  }

  /** Where the steps after a link lead; only the removal of the temporary name changes the directory. */
  function Following(s: Disk, h: Digest, key: Key, call: Call, temp: bool, ok: bool): Phase
    requires !Unlinked(call.phase)
  {
    match call.phase
    case LinkRefused => if s.final.None? then Cleaning else if call.kind.Put? then Comparing else Unlinking(Adopted)
    case Comparing => if ok && Accepts(s, h, key, call) then Unlinking(Compared) else Cleaning
    case Unlinking(next) =>
      if ok then if next.Adopted? then Adopting else Confirming
      else if next.OwnLink? && call.kind.Put? then LinkRefused else Cleaning
    case Confirming => if ok && Confirms(s, h, key, call) then Returned else Cleaning
    case Adopting => if ok && Accepts(s, h, key, call) then Returned else Cleaning
    case Cleaning => Raised(temp && !ok)
    case Returned => Returned
    case Raised(left) => Raised(left)
    case Crashed => Crashed
  }

  /** The next file-system step of a call, which fails when `ok` does not hold. */
  function Step(s: Disk, h: Digest, key: Key, c: Caller, ok: bool, amount: nat): Disk
    requires c in s.calls
  {
    var phase := s.calls[c].phase;
    if Unlinked(phase) then Prepare(s, c, ok, amount)
    else
      At(if ok && (phase.Unlinking? || phase.Cleaning?) then s.(temps := s.temps - {c}) else s, c,
         Following(s, h, key, s.calls[c], c in s.temps, ok))
  }

  function Apply(s: Disk, h: Digest, key: Key, e: Event): Disk {
    match e
    case Begin(c, kind, bytes) =>
      if c in s.calls then s
      else s.(calls := s.calls[c := Call(kind, bytes, if h(bytes) == key then Checking else Raised(false), false)])
    case Advance(c, ok, amount) => if c in s.calls then Step(s, h, key, c, ok, amount) else s
    case Crash(c) => if c in s.calls && !Finished(s.calls[c].phase) then At(s, c, Crashed) else s
    case Delete => s.(final := None)
  }

  datatype Run = End | Then(event: Event, rest: Run)

  function After(s: Disk, h: Digest, key: Key, run: Run): Disk
    decreases run
  {
    match run
    case End => s
    case Then(e, rest) => After(Apply(s, h, key, e), h, key, rest)
  }

  predicate NoDelete(run: Run) {
    run.Then? ==> !run.event.Delete? && NoDelete(run.rest)
  }

  // ----- what every step keeps -----

  predicate HasTemp(p: Phase) {
    p.Writing? || p.Syncing? || p.Hooking? || p.Linking? || p.LinkRefused? || p.Comparing? || p.Unlinking?
  }

  predicate NoTemp(p: Phase) {
    p.Checking? || p.Opening? || p.Confirming? || p.Adopting? || p.Returned? || p == Raised(false)
  }

  predicate Complete(p: Phase) {
    HasTemp(p) && !p.Writing?
  }

  /** One call: its temporary name exists exactly where its phase says, with what was written so far. */
  predicate GoodCall(s: Disk, h: Digest, key: Key, c: Caller, call: Call) {
    && (HasTemp(call.phase) || call.phase == Raised(true) ==> c in s.temps)
    && (NoTemp(call.phase) ==> c !in s.temps)
    && (!call.phase.Raised? ==> h(call.bytes) == key)
    && (call.phase.Writing? ==> call.phase.written <= |call.bytes| && c in s.files && s.files[c] == call.bytes[..call.phase.written])
    && (Complete(call.phase) ==> c in s.files && s.files[c] == call.bytes)
    && (call.kind.PutDurable? && call.phase.Linking? ==> call.hooked)
  }

  /** The content path: absent, or the complete file of a call whose hook finished. */
  predicate GoodFinal(s: Disk, h: Digest, key: Key) {
    s.final.Some? ==>
      var c := s.final.value;
      && c in s.calls && c in s.files && s.files[c] == s.calls[c].bytes && h(s.calls[c].bytes) == key
      && !Unlinked(s.calls[c].phase) && (s.calls[c].kind.PutDurable? ==> s.calls[c].hooked)
  }

  ghost predicate Good(s: Disk, h: Digest, key: Key) {
    && (forall c :: c in s.calls ==> GoodCall(s, h, key, c, s.calls[c]))
    && (forall c :: c in s.temps ==> c in s.calls)
    && GoodFinal(s, h, key)
  }

  /** A step of one call leaves every other call's file and name alone. */
  lemma StepFootprint(s: Disk, h: Digest, key: Key, c: Caller, ok: bool, amount: nat)
    requires c in s.calls
    ensures var k := Step(s, h, key, c, ok, amount);
      && k.calls.Keys == s.calls.Keys
      && (forall d :: d in s.calls && d != c ==> k.calls[d] == s.calls[d])
      && (forall d :: d != c ==> (d in k.temps <==> d in s.temps) && (d in k.files <==> d in s.files))
      && (forall d :: d in s.files && d != c ==> k.files[d] == s.files[d])
      && (k.final == s.final || (s.final.None? && k.final == Some(c)))
  {
  }

  lemma PrepareKeepsCall(s: Disk, h: Digest, key: Key, c: Caller, ok: bool, amount: nat)
    requires c in s.calls && Unlinked(s.calls[c].phase) && GoodCall(s, h, key, c, s.calls[c])
    ensures var k := Prepare(s, c, ok, amount); c in k.calls && GoodCall(k, h, key, c, k.calls[c])
  {
    if s.calls[c].phase.Writing? { WriteKeepsCall(s, h, key, c, ok, amount); }
  }

  lemma WriteKeepsCall(s: Disk, h: Digest, key: Key, c: Caller, ok: bool, amount: nat)
    requires c in s.calls && s.calls[c].phase.Writing? && GoodCall(s, h, key, c, s.calls[c])
    ensures var k := Write(s, c, ok, amount); c in k.calls && GoodCall(k, h, key, c, k.calls[c])
  {
  }

  lemma StepKeepsCall(s: Disk, h: Digest, key: Key, c: Caller, ok: bool, amount: nat)
    requires c in s.calls && GoodCall(s, h, key, c, s.calls[c])
    ensures var k := Step(s, h, key, c, ok, amount); GoodCall(k, h, key, c, k.calls[c])
  {
    if Unlinked(s.calls[c].phase) { PrepareKeepsCall(s, h, key, c, ok, amount); }
  }

  lemma StepKeepsFinal(s: Disk, h: Digest, key: Key, c: Caller, ok: bool, amount: nat)
    requires c in s.calls && GoodCall(s, h, key, c, s.calls[c]) && GoodFinal(s, h, key)
    ensures GoodFinal(Step(s, h, key, c, ok, amount), h, key)
  {
  }

  lemma OthersStayGood(s: Disk, k: Disk, h: Digest, key: Key, c: Caller, d: Caller)
    requires d in s.calls && d in k.calls && d != c && k.calls[d] == s.calls[d] && GoodCall(s, h, key, d, s.calls[d])
    requires (d in k.temps <==> d in s.temps) && (d in s.files ==> d in k.files && k.files[d] == s.files[d])
    ensures GoodCall(k, h, key, d, k.calls[d])
  {
  }

  lemma StepStaysGood(s: Disk, h: Digest, key: Key, c: Caller, ok: bool, amount: nat)
    requires Good(s, h, key) && c in s.calls
    ensures Good(Step(s, h, key, c, ok, amount), h, key)
  {
    var k := Step(s, h, key, c, ok, amount);
    StepFootprint(s, h, key, c, ok, amount);
    StepKeepsCall(s, h, key, c, ok, amount);
    StepKeepsFinal(s, h, key, c, ok, amount);
    forall d | d in k.calls ensures GoodCall(k, h, key, d, k.calls[d]) {
      if d != c { OthersStayGood(s, k, h, key, c, d); }
    }
  }

  lemma EventsStayGood(s: Disk, h: Digest, key: Key, e: Event)
    requires Good(s, h, key)
    ensures Good(Apply(s, h, key, e), h, key)
  {
    if e.Advance? {
      if e.caller in s.calls { StepStaysGood(s, h, key, e.caller, e.ok, e.amount); }
    } else {
      OtherEventsStayGood(s, h, key, e);
    }
  }

  lemma OtherEventsStayGood(s: Disk, h: Digest, key: Key, e: Event)
    requires Good(s, h, key) && !e.Advance?
    ensures Good(Apply(s, h, key, e), h, key)
  {
    var k := Apply(s, h, key, e);
    forall c | c in k.calls ensures GoodCall(k, h, key, c, k.calls[c]) {
      if c in s.calls { assert GoodCall(s, h, key, c, s.calls[c]); }
    }
  }

  lemma {:induction false} RunsStayGood(s: Disk, h: Digest, key: Key, run: Run)
    requires Good(s, h, key)
    ensures Good(After(s, h, key, run), h, key)
    decreases run
  {
    match run
    case End =>
    case Then(e, rest) =>
      EventsStayGood(s, h, key, e);
      RunsStayGood(Apply(s, h, key, e), h, key, rest);
  }

  /** After any interleaving of calls, failures, crashes and deletes, the content path is absent or a
      complete file whose digest is the key, and a durable call's file is there only if its hook finished. */
  lemma PathIsAbsentOrComplete(h: Digest, key: Key, run: Run)
    ensures var s := After(EMPTY, h, key, run);
      s.final.Some? ==>
        var c := s.final.value;
        && c in s.calls && Content(s) == Some(s.calls[c].bytes) && h(Content(s).value) == key
        && (s.calls[c].kind.PutDurable? ==> s.calls[c].hooked)
  {
    RunsStayGood(EMPTY, h, key, run);
  }

  /** Once linked, the content path keeps naming the same file with the same bytes until it is deleted. */
  lemma {:induction false} NeverReplaced(s: Disk, h: Digest, key: Key, run: Run)
    requires Good(s, h, key) && s.final.Some? && NoDelete(run)
    ensures After(s, h, key, run).final == s.final && Content(After(s, h, key, run)) == Content(s)
    decreases run
  {
    match run
    case End =>
    case Then(e, rest) =>
      var k := Apply(s, h, key, e);
      EventsStayGood(s, h, key, e);
      if e.Advance? && e.caller in s.calls {
        StepFootprint(s, h, key, e.caller, e.ok, e.amount);
      }
      BytesNeverChange(s, h, key, e);
      NeverReplaced(k, h, key, rest);
  }

  lemma BytesNeverChange(s: Disk, h: Digest, key: Key, e: Event)
    requires Good(s, h, key) && s.final.Some? && !e.Delete?
    ensures var k := Apply(s, h, key, e);
      k.final == s.final && Content(k) == Content(s)
  {
    if e.Advance? && e.caller in s.calls {
      StepFootprint(s, h, key, e.caller, e.ok, e.amount);
    }
  }

  predicate ReturnedPublished(s: Disk) {
    forall c :: c in s.calls && s.calls[c].phase.Returned? ==> s.final.Some?
  }

  lemma StepsStayPublished(s: Disk, h: Digest, key: Key, e: Event)
    requires ReturnedPublished(s) && !e.Delete?
    ensures ReturnedPublished(Apply(s, h, key, e))
  {
    var k := Apply(s, h, key, e);
    if e.Advance? && e.caller in s.calls {
      StepFootprint(s, h, key, e.caller, e.ok, e.amount);
      if !s.calls[e.caller].phase.Returned? { ReturnsOnContent(s, h, key, e.caller, e.ok, e.amount); }
    }
  }

  lemma ReturnsOnContent(s: Disk, h: Digest, key: Key, c: Caller, ok: bool, amount: nat)
    requires c in s.calls && !s.calls[c].phase.Returned?
    ensures Step(s, h, key, c, ok, amount).calls[c].phase.Returned? ==> Content(s).Some?
  {
  }

  /** Without deletes, whenever a call has returned the content is published. */
  lemma {:induction false} ReturnedMeansPublished(s: Disk, h: Digest, key: Key, run: Run)
    requires ReturnedPublished(s) && NoDelete(run)
    ensures ReturnedPublished(After(s, h, key, run))
    decreases run
  {
    match run
    case End =>
    case Then(e, rest) =>
      StepsStayPublished(s, h, key, e);
      ReturnedMeansPublished(Apply(s, h, key, e), h, key, rest);
  }

  /** A finished call's temporary file is gone, unless removing it failed: that is known when it throws. */
  lemma FinishedCallLeavesNothing(h: Digest, key: Key, run: Run, c: Caller)
    ensures var s := After(EMPTY, h, key, run);
      c in s.calls ==>
        && (s.calls[c].phase.Returned? ==> c !in s.temps)
        && (s.calls[c].phase.Raised? ==> (c in s.temps <==> s.calls[c].phase.leftBehind))
  {
    RunsStayGood(EMPTY, h, key, run);
    var s := After(EMPTY, h, key, run);
    if c in s.calls { assert GoodCall(s, h, key, c, s.calls[c]); }
  }

  predicate CollisionFree(h: Digest, b: Bytes, c: Bytes) {
    h(b) == h(c) ==> b == c
  }

  /** Without deletes, what is published when a call has returned has the digest of its bytes; it is
      those bytes unless the digest collides. */
  lemma PublishedIsCallers(h: Digest, key: Key, run: Run, c: Caller)
    requires NoDelete(run)
    ensures var s := After(EMPTY, h, key, run);
      c in s.calls && s.calls[c].phase.Returned? ==>
        && Content(s).Some? && h(Content(s).value) == h(s.calls[c].bytes)
        && (CollisionFree(h, Content(s).value, s.calls[c].bytes) ==> Content(s).value == s.calls[c].bytes)
  {
    RunsStayGood(EMPTY, h, key, run);
    ReturnedMeansPublished(EMPTY, h, key, run);
    var s := After(EMPTY, h, key, run);
    if c in s.calls { assert GoodCall(s, h, key, c, s.calls[c]); }
  }
}
