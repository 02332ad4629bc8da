/** What single operations of the forge observer come to: which pull requests a refresh reads, where a
    freed slot goes, and what a finished read leaves behind. */
module ForgeOutcomes {
  import opened ForgeObserver

  /** Reads that a refresh may ask for: not in flight, and at least half a minute after the last. */
  predicate Waits(s: Observer, key: Key, now: Time) {
    key !in s.inFlight && (key in s.lastRead ==> now - s.lastRead[key] >= 30_000)
  }

  predicate Named(groups: seq<seq<Key>>, key: Key) {
    exists g :: 0 <= g < |groups| && key in groups[g]
  }

  /** Reads are only added: refresh reads of one to sixteen pull requests each. */
  predicate AddsReads(s: Observer, k: Observer) {
    && |s.issued| <= |k.issued| && k.issued[..|s.issued|] == s.issued
    && (forall id :: |s.issued| <= id < |k.issued| ==> k.issued[id].refresh && 1 <= |k.issued[id].keys| <= 16)
  }

  /** A pull request that came to be in flight is in a read that was added, and rests from now on; every
      other one is as it was. */
  predicate Flies(s: Observer, k: Observer, key: Key, now: Time) {
    if key in s.inFlight then key in k.inFlight && k.inFlight[key] == s.inFlight[key] && SameRest(s, k, key)
    else if key in k.inFlight then
      && |s.issued| <= k.inFlight[key] < |k.issued| && key in k.issued[k.inFlight[key]].keys
      && key in k.lastRead && k.lastRead[key] == now
    else SameRest(s, k, key)
  }

  predicate SameRest(s: Observer, k: Observer, key: Key) {
    (key in k.lastRead <==> key in s.lastRead) && (key in s.lastRead ==> k.lastRead[key] == s.lastRead[key])
  }

  ghost predicate Issues(s: Observer, k: Observer, now: Time) {
    AddsReads(s, k) && |s.queue| <= |k.queue| && k.finished == s.finished && forall key :: Flies(s, k, key, now)
  }

  lemma IssuesTwice(s: Observer, j: Observer, k: Observer, now: Time)
    requires Issues(s, j, now) && Issues(j, k, now)
    ensures Issues(s, k, now)
  {
    assert k.issued[..|s.issued|] == k.issued[..|j.issued|][..|s.issued|];
    forall id | |s.issued| <= id < |k.issued| ensures k.issued[id].refresh && 1 <= |k.issued[id].keys| <= 16 {
      if id < |j.issued| { assert k.issued[id] == k.issued[..|j.issued|][id]; }
    }
    forall key ensures Flies(s, k, key, now) {
      assert Flies(s, j, key, now) && Flies(j, k, key, now);
      if key !in s.inFlight && key in j.inFlight { assert k.issued[j.inFlight[key]] == k.issued[..|j.issued|][j.inFlight[key]]; }
    }
  }

  lemma StartBatchIssues(s: Observer, now: Time, keys: seq<Key>)
    requires 1 <= |keys| <= 16 && forall key :: key in keys ==> key !in s.inFlight
    ensures var k := StartBatch(s, now, keys); Issues(s, k, now) && forall key :: key in keys ==> key in k.inFlight
  {
    LimitedKeepsOthers(s, keys, true);
  }

  lemma {:induction false} StartBatchesIssue(s: Observer, now: Time, due: seq<Key>)
    requires AllNew(s, due)
    ensures var k := StartBatches(s, now, due);
      && Issues(s, k, now)
      && (|k.queue| >= 8 || forall key :: key in due ==> key in k.inFlight)
      && (forall key :: key in k.inFlight && key !in s.inFlight ==> key in due)
    decreases |due|
  {
    if due != [] && |s.queue| < MAX_QUEUED_READS {
      if |due| <= REFS_PER_REQUEST {
        StartBatchIssues(s, now, due);
      } else {
        var batch, rest := due[..REFS_PER_REQUEST], due[REFS_PER_REQUEST..];
        assert due == batch + rest;
        StartBatchIssues(s, now, batch);
        var j := StartBatch(s, now, batch);
        RestIsNew(s, j, due, batch, rest);
        StartBatchesIssue(j, now, rest);
        var k := StartBatches(j, now, rest);
        IssuesTwice(s, j, k, now);
        forall key | key in batch ensures key in k.inFlight { assert Flies(j, k, key, now); }
      }
    }
  }

  lemma RestIsNew(s: Observer, j: Observer, due: seq<Key>, batch: seq<Key>, rest: seq<Key>)
    requires AllNew(s, due) && due == batch + rest && j.inFlight.Keys == s.inFlight.Keys + (set k | k in batch)
    ensures AllNew(j, rest)
  {
    forall key | key in rest ensures key !in j.inFlight {
      var i :| 0 <= i < |rest| && rest[i] == key;
      assert due[|batch| + i] == key && key in due;
      forall b | 0 <= b < |batch| ensures batch[b] != key {
        assert due[b] == batch[b];
      }
    }
    forall a, b | 0 <= a < b < |rest| ensures rest[a] != rest[b] {
      assert due[|batch| + a] == rest[a] && due[|batch| + b] == rest[b];
    }
  }

  lemma {:induction false} DueRefsAreAll(s: Observer, now: Time, refs: seq<Key>, key: Key)
    ensures key in DueRefs(s, now, refs) <==> key in refs && Waits(s, key, now)
    decreases |refs|
  {
    if refs != [] {
      DueRefsAreAll(s, now, refs[..|refs| - 1], key);
      assert refs == refs[..|refs| - 1] + [refs[|refs| - 1]];
    }
  }

  /** What is in flight afterwards: what was, and of the groups' waiting pull requests all, or some where
      the queue is full. */
  ghost predicate Reads(s: Observer, k: Observer, now: Time, groups: seq<seq<Key>>) {
    && (forall key :: key in k.inFlight && key !in s.inFlight ==> Named(groups, key) && Waits(s, key, now))
    && (|k.queue| >= 8 || forall key :: Named(groups, key) && Waits(s, key, now) ==> key in k.inFlight)
  }

  lemma {:induction false} GroupsRead(s: Observer, now: Time, groups: seq<seq<Key>>)
    ensures var k := RefreshGroups(s, now, groups); Issues(s, k, now) && Reads(s, k, now, groups)
    decreases |groups|
  {
    if groups == [] {
      assert s.issued[..|s.issued|] == s.issued;
      forall key ensures Flies(s, s, key, now) || key in s.inFlight {}
    } else {
      var due := DueRefs(s, now, groups[0]);
      DueRefsAreNew(s, now, groups[0]);
      StartBatchesIssue(s, now, due);
      var j := StartBatches(s, now, due);
      GroupsRead(j, now, groups[1..]);
      var k := RefreshGroups(j, now, groups[1..]);
      IssuesTwice(s, j, k, now);
      OneMoreGroup(s, j, k, now, groups);
    }
  }

  lemma OneMoreGroup(s: Observer, j: Observer, k: Observer, now: Time, groups: seq<seq<Key>>)
    requires groups != [] && Issues(s, j, now) && Issues(j, k, now) && Reads(j, k, now, groups[1..])
    requires |j.queue| >= 8 || forall key :: key in DueRefs(s, now, groups[0]) ==> key in j.inFlight
    requires forall key :: key in j.inFlight && key !in s.inFlight ==> key in DueRefs(s, now, groups[0])
    ensures Reads(s, k, now, groups)
  {
    forall key | key in k.inFlight && key !in s.inFlight ensures Named(groups, key) && Waits(s, key, now) {
      DueRefsAreAll(s, now, groups[0], key);
      if key !in j.inFlight {
        assert Flies(s, j, key, now);
        var g :| 0 <= g < |groups[1..]| && key in groups[1..][g];
        assert groups[g + 1] == groups[1..][g];
      }
    }
    if |k.queue| < 8 {
      forall key | Named(groups, key) && Waits(s, key, now) ensures key in k.inFlight {
        DueRefsAreAll(s, now, groups[0], key);
        assert Flies(s, j, key, now) && Flies(j, k, key, now);
        var g :| 0 <= g < |groups| && key in groups[g];
        if g > 0 && key !in j.inFlight { assert groups[1..][g - 1] == groups[g]; }
      }
    }
  }

  /** A refresh reads exactly the named pull requests that wait, each in one added read of at most
      sixteen, unless the queue is full when it ends; and nothing else comes to be in flight. */
  lemma RefreshReadsWaiting(s: Observer, now: Time, groups: seq<seq<Key>>, key: Key)
    ensures var k := Refresh(s, now, groups);
      && AddsReads(s, k)
      && (key in k.inFlight && key !in s.inFlight ==>
            && Named(groups, key) && Waits(s, key, now)
            && |s.issued| <= k.inFlight[key] < |k.issued| && key in k.issued[k.inFlight[key]].keys
            && key in k.lastRead && k.lastRead[key] == now)
      && (Named(groups, key) && Waits(s, key, now) && |k.queue| < 8 ==> key in k.inFlight)
  {
    var t := Trimmed(s, now);
    GroupsRead(t, now, groups);
    assert Flies(t, Refresh(s, now, groups), key, now);
    assert Waits(t, key, now) <==> Waits(s, key, now);
  }

  /** What is forgotten is older than any interval, and only when more than 4096 reads are remembered. */
  lemma TrimmingForgetsOld(s: Observer, now: Time, key: Key)
    ensures var k := Trimmed(s, now);
      && k.(lastRead := s.lastRead) == s
      && (key in k.lastRead <==> key in s.lastRead && (|s.lastRead| <= 4_096 || now - s.lastRead[key] < 300_000))
      && (key in k.lastRead ==> k.lastRead[key] == s.lastRead[key])
  {
  }

  /** An authoritative read asks for all of its batches when the queue can hold them, and for none
      otherwise. */
  lemma ReadsNowAllOrNone(s: Observer, batches: seq<seq<Key>>)
    ensures var k := ReadNow(s, batches);
      if |s.queue| + |batches| > 8 then k == s
      else
        && |k.issued| == |s.issued| + |batches| && k.issued[..|s.issued|] == s.issued
        && k.inFlight == s.inFlight && k.lastRead == s.lastRead && k.finished == s.finished
        && forall b :: 0 <= b < |batches| ==> k.issued[|s.issued| + b].keys == batches[b] && !k.issued[|s.issued| + b].refresh
  {
    LimitedAllAsks(s, batches);
  }

  lemma {:induction false} LimitedAllAsks(s: Observer, batches: seq<seq<Key>>)
    ensures var k := LimitedAll(s, batches);
      && |k.issued| == |s.issued| + |batches| && k.issued[..|s.issued|] == s.issued
      && k.inFlight == s.inFlight && k.lastRead == s.lastRead && k.finished == s.finished
      && forall b :: 0 <= b < |batches| ==> k.issued[|s.issued| + b].keys == batches[b] && !k.issued[|s.issued| + b].refresh
    decreases |batches|
  {
    if batches == [] {
      assert s.issued[..|s.issued|] == s.issued;
    } else {
      var j := Limited(s, batches[0], false);
      LimitedKeepsOthers(s, batches[0], false);
      LimitedAllAsks(j, batches[1..]);
      var k := LimitedAll(j, batches[1..]);
      assert k.issued[..|s.issued|] == k.issued[..|j.issued|][..|s.issued|];
      forall b | 0 <= b < |batches| ensures k.issued[|s.issued| + b].keys == batches[b] && !k.issued[|s.issued| + b].refresh {
        if b == 0 {
          assert k.issued[|s.issued|] == k.issued[..|j.issued|][|s.issued|];
        } else {
          assert k.issued[|j.issued| + (b - 1)].keys == batches[1..][b - 1];
        }
      }
    }
  }

  /** An answer frees the read's slot for the read that has waited longest, and for none when none waits. */
  lemma AnswerPassesSlot(s: Observer, id: nat)
    requires Fair(s) && id < |s.issued| && s.issued[id].phase == Reading
    ensures var k := Answer(s, id);
      && |k.issued| == |s.issued| && k.issued[id].phase == Answered
      && k.(running := s.running, queue := s.queue, issued := s.issued) == s
      && if s.queue == [] then
           && k.queue == [] && k.running == s.running - 1
           && forall i :: 0 <= i < |s.issued| && i != id ==> k.issued[i] == s.issued[i]
         else
           && k.queue == s.queue[1..] && k.running == s.running && s.queue[0] < |s.issued| && k.issued[s.queue[0]].phase == Reading
           && forall i :: 0 <= i < |s.issued| && i != id && i != s.queue[0] ==> k.issued[i] == s.issued[i]
  {
    if s.queue != [] { assert s.queue[0] in s.queue; }
    assert id in Slots(s.issued);
  }

  /** A refresh read that is done releases its pull requests, which rest from now on. */
  lemma SettlingReleases(s: Observer, id: nat, now: Time, key: Key)
    requires id < |s.issued| && s.issued[id].phase == Answered && s.issued[id].refresh
    ensures var k := Settle(s, id, now);
      && |k.issued| == |s.issued| && k.issued[id].phase == Settled && k.queue == s.queue && k.running == s.running
      && (forall i :: 0 <= i < |s.issued| && i != id ==> k.issued[i] == s.issued[i])
      && (if key in s.issued[id].keys
          then key in k.lastRead && k.lastRead[key] == now && key in k.finished && k.finished[key] == now
          else SameRest(s, k, key) && (key in k.finished <==> key in s.finished))
      && (key in k.inFlight <==> key in s.inFlight && !(key in s.issued[id].keys && s.inFlight[key] == id))
      && (key in k.inFlight ==> k.inFlight[key] == s.inFlight[key])
  {
  }
}
