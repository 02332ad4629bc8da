/** Longest-processing-time sharding of the browser test files.

    Files are indivisible, shard 0 starts with the production build already on it, and each file
    in longest-first order joins the shard that is least loaded so far. */
module BrowserShards {
  import opened ShardLoads

  const BROWSER_SHARD_COUNT: nat := 10

  datatype Profile = Profile(fallbackDurationMs: nat, productionDurationMs: nat, files: map<string, nat>)

  datatype Shard = Shard(files: seq<string>, durationMs: nat)

  function Weight(profile: Profile, file: string): nat {
    if file in profile.files then profile.files[file] else profile.fallbackDurationMs
  }

  function Weights(profile: Profile, files: seq<string>): (ws: seq<nat>)
    ensures |ws| == |files|
    ensures forall i :: 0 <= i < |files| ==> ws[i] == Weight(profile, files[i])
  {
    seq(|files|, i requires 0 <= i < |files| => Weight(profile, files[i]))
  }

  // ----- longest-first order -----

  /** The comparator: heavier first, then by name. `noLater` stands for the locale comparison. */
  predicate Precedes(profile: Profile, noLater: (string, string) -> bool, a: string, b: string) {
    || Weight(profile, a) > Weight(profile, b)
    || (Weight(profile, a) == Weight(profile, b) && noLater(a, b))
  }

  function Insert(profile: Profile, noLater: (string, string) -> bool, file: string, sorted: seq<string>): (r: seq<string>)
    ensures multiset(r) == multiset(sorted) + multiset{file}
  {
    if sorted == [] then [file]
    else if Precedes(profile, noLater, file, sorted[0]) then [file] + sorted
    else
      assert sorted == [sorted[0]] + sorted[1..];
      [sorted[0]] + Insert(profile, noLater, file, sorted[1..])
  }

  lemma {:induction false} InsertSorted(profile: Profile, noLater: (string, string) -> bool, file: string, sorted: seq<string>)
    requires NonIncreasing(Weights(profile, sorted))
    ensures NonIncreasing(Weights(profile, Insert(profile, noLater, file, sorted)))
  {
    if sorted == [] {
    } else if Precedes(profile, noLater, file, sorted[0]) {
      LighterBehind(profile, file, sorted);
    } else {
      var tail := sorted[1..];
      assert sorted == [sorted[0]] + tail;
      assert forall i :: 0 <= i < |tail| ==> Weights(profile, tail)[i] == Weights(profile, sorted)[i + 1];
      InsertSorted(profile, noLater, file, tail);
      var rest := Insert(profile, noLater, file, tail);
      assert rest[0] in multiset(rest);
      if rest[0] != file {
        assert rest[0] in tail;
        var j :| 0 <= j < |tail| && tail[j] == rest[0];
        assert Weights(profile, sorted)[j + 1] <= Weights(profile, sorted)[0];
      }
      LighterBehind(profile, sorted[0], rest);
    }
  }

  lemma LighterBehind(profile: Profile, first: string, rest: seq<string>)
    requires NonIncreasing(Weights(profile, rest))
    requires rest != [] ==> Weight(profile, rest[0]) <= Weight(profile, first)
    ensures NonIncreasing(Weights(profile, [first] + rest))
  {
    var ws, all := Weights(profile, rest), Weights(profile, [first] + rest);
    forall i, j | 0 <= i < j < |all| ensures all[j] <= all[i] {
      assert all[j] == ws[j - 1] <= ws[0];
      assert i > 0 ==> all[i] == ws[i - 1];
    }
  }

  /** A stable insertion sort: the sorted copy the sharding loop walks. */
  function LongestFirst(profile: Profile, noLater: (string, string) -> bool, files: seq<string>): (r: seq<string>)
    ensures multiset(r) == multiset(files)
    ensures NonIncreasing(Weights(profile, r))
  {
    if files == [] then []
    else
      var front, last := files[..|files| - 1], files[|files| - 1];
      assert files == front + [last];
      var sorted := LongestFirst(profile, noLater, front);
      InsertSorted(profile, noLater, last, sorted);
      Insert(profile, noLater, last, sorted)
  }

  // ----- the sharding loop -----

  /** The files of shard `k` among the first `i`, in the order they were pushed. */
  function FilesOf(order: seq<string>, place: seq<nat>, k: nat, i: nat): seq<string>
    requires i <= |order| && i <= |place|
  {
    if i == 0 then []
    else FilesOf(order, place, k, i - 1) + if place[i - 1] == k then [order[i - 1]] else []
  }

  /** First of the least-loaded shards. */
  method LeastLoaded(shards: seq<Shard>) returns (best: nat)
    requires shards != []
    ensures best < |shards|
    ensures forall k :: 0 <= k < |shards| ==> shards[best].durationMs <= shards[k].durationMs
    ensures forall k :: 0 <= k < best ==> shards[best].durationMs < shards[k].durationMs
  {
    best := 0;
    for candidate := 1 to |shards|
      invariant best < candidate
      invariant forall k :: 0 <= k < candidate ==> shards[best].durationMs <= shards[k].durationMs
      invariant forall k :: 0 <= k < best ==> shards[best].durationMs < shards[k].durationMs
    {
      if shards[candidate].durationMs < shards[best].durationMs {
        best := candidate;
      }
    }
  }

  /** The ghost `place` says which shard each file of the longest-first order joined; it fixes the
      contents of every shard, each file once. No shard exceeds 4/3 - 1/30 of the fullest shard of any
      other assignment. */
  method BrowserShards(files: seq<string>, profile: Profile, noLater: (string, string) -> bool)
    returns (shards: seq<Shard>, ghost place: seq<nat>)
    ensures |shards| == BROWSER_SHARD_COUNT
    ensures
      var order := LongestFirst(profile, noLater, files);
      var ws := Weights(profile, order);
      && Greedy(ws, place, profile.productionDurationMs, BROWSER_SHARD_COUNT)
      && (forall k :: 0 <= k < BROWSER_SHARD_COUNT ==> shards[k].files == FilesOf(order, place, k, |order|))
      && AllFiles(order, place, BROWSER_SHARD_COUNT, |order|) == multiset(files)
      && (forall k :: 0 <= k < BROWSER_SHARD_COUNT ==>
            shards[k].durationMs == Load(ws, place, profile.productionDurationMs, k, |ws|))
    ensures
      var ws := Weights(profile, LongestFirst(profile, noLater, files));
      forall other, most: nat :: Within(ws, other, profile.productionDurationMs, BROWSER_SHARD_COUNT, most) ==>
        forall k :: 0 <= k < BROWSER_SHARD_COUNT ==> 30 * shards[k].durationMs <= 39 * most
  {
    var order := LongestFirst(profile, noLater, files);
    ghost var ws := Weights(profile, order);
    ghost var preload := profile.productionDurationMs;
    shards := seq(BROWSER_SHARD_COUNT, index => Shard([], if index == 0 then profile.productionDurationMs else 0));
    place := [];
    for i := 0 to |order|
      invariant |shards| == BROWSER_SHARD_COUNT && |place| == i
      invariant forall j :: 0 <= j < i ==> place[j] < BROWSER_SHARD_COUNT && JoinedLeast(ws, place, preload, BROWSER_SHARD_COUNT, j)
      invariant forall k: nat :: k < BROWSER_SHARD_COUNT ==> shards[k].files == FilesOf(order, place, k, i)
      invariant forall k: nat :: k < BROWSER_SHARD_COUNT ==> shards[k].durationMs == Load(ws, place, preload, k, i)
    {
      var best := LeastLoaded(shards);
      ghost var was := place;
      place := place + [best];
      PlaceNext(order, ws, was, best, preload, BROWSER_SHARD_COUNT);
      shards := shards[best := Shard(shards[best].files + [order[i]], shards[best].durationMs + Weight(profile, order[i]))];
    }
    FilesPartition(order, place, BROWSER_SHARD_COUNT, |order|);
    assert order[..|order|] == order;
    forall other, most: nat | Within(ws, other, preload, BROWSER_SHARD_COUNT, most)
      ensures forall k :: 0 <= k < BROWSER_SHARD_COUNT ==> 30 * shards[k].durationMs <= 39 * most
    {
      forall k | 0 <= k < BROWSER_SHARD_COUNT ensures 30 * shards[k].durationMs <= 39 * most {
        FourThirdsHolds(ws, place, other, preload, BROWSER_SHARD_COUNT, most, k);
      }
    }
  }

  /** Placing one more file changes no earlier load, and adds the file to the shard it joins. */
  lemma PlaceNext(order: seq<string>, ws: seq<nat>, place: seq<nat>, best: nat, preload: nat, m: nat)
    requires |place| < |order| == |ws| && best < m
    requires forall j :: 0 <= j < |place| ==> JoinedLeast(ws, place, preload, m, j)
    requires forall k: nat :: k < m ==> Load(ws, place, preload, best, |place|) <= Load(ws, place, preload, k, |place|)
    ensures var next := place + [best];
      && (forall j :: 0 <= j <= |place| ==> JoinedLeast(ws, next, preload, m, j))
      && (forall k: nat :: k < m ==>
            Load(ws, next, preload, k, |place| + 1) == Load(ws, place, preload, k, |place|) + if k == best then ws[|place|] else 0)
      && (forall k: nat :: k < m ==>
            FilesOf(order, next, k, |place| + 1) == FilesOf(order, place, k, |place|) + if k == best then [order[|place|]] else [])
  {
    var next, n := place + [best], |place|;
    forall k: nat | k < m
      ensures Load(ws, next, preload, k, n) == Load(ws, place, preload, k, n) && FilesOf(order, next, k, n) == FilesOf(order, place, k, n)
    {
      SamePrefix(order, ws, next, place, preload, k, n);
    }
    forall j | 0 <= j <= n ensures JoinedLeast(ws, next, preload, m, j) {
      if j < n { StillJoined(order, ws, place, best, preload, m, j); }
    }
  }

  lemma StillJoined(order: seq<string>, ws: seq<nat>, place: seq<nat>, best: nat, preload: nat, m: nat, j: nat)
    requires j < |place| < |order| == |ws| && JoinedLeast(ws, place, preload, m, j)
    ensures JoinedLeast(ws, place + [best], preload, m, j)
  {
    forall k: nat ensures Load(ws, place + [best], preload, k, j) == Load(ws, place, preload, k, j) {
      SamePrefix(order, ws, place + [best], place, preload, k, j);
    }
  }

  lemma {:induction false} SamePrefix(order: seq<string>, ws: seq<nat>, a: seq<nat>, b: seq<nat>, preload: nat, k: nat, i: nat)
    requires i <= |order| && i <= |ws| && i <= |a| && i <= |b| && a[..i] == b[..i]
    ensures Load(ws, a, preload, k, i) == Load(ws, b, preload, k, i)
    ensures FilesOf(order, a, k, i) == FilesOf(order, b, k, i)
  {
    if i > 0 {
      assert a[..i][i - 1] == b[..i][i - 1];
      assert a[..i][..i - 1] == a[..i - 1] && b[..i][..i - 1] == b[..i - 1];
      SamePrefix(order, ws, a, b, preload, k, i - 1);
    }
  }

  /** All files on the first `m` shards, with their multiplicities. */
  function AllFiles(order: seq<string>, place: seq<nat>, m: nat, i: nat): multiset<string>
    requires i <= |order| && i <= |place|
  {
    if m == 0 then multiset{} else AllFiles(order, place, m - 1, i) + multiset(FilesOf(order, place, m - 1, i))
  }

  lemma {:induction false} AllFilesStep(order: seq<string>, place: seq<nat>, m: nat, i: nat)
    requires 0 < i <= |order| && i <= |place|
    ensures AllFiles(order, place, m, i)
         == AllFiles(order, place, m, i - 1) + if place[i - 1] < m then multiset{order[i - 1]} else multiset{}
  {
    if m > 0 {
      AllFilesStep(order, place, m - 1, i);
    }
  }

  lemma {:induction false} NoFilesYet(order: seq<string>, place: seq<nat>, m: nat)
    ensures AllFiles(order, place, m, 0) == multiset{}
  {
    if m > 0 {
      NoFilesYet(order, place, m - 1);
    }
  }

  /** Partition: over all shards, each listed file is placed exactly as often as it is listed. */
  lemma {:induction false} FilesPartition(order: seq<string>, place: seq<nat>, m: nat, i: nat)
    requires i <= |order| && i <= |place| && forall j :: 0 <= j < i ==> place[j] < m
    ensures AllFiles(order, place, m, i) == multiset(order[..i])
  {
    if i == 0 {
      NoFilesYet(order, place, m);
    } else {
      FilesPartition(order, place, m, i - 1);
      assert order[..i] == order[..i - 1] + [order[i - 1]];
      assert place[i - 1] < m;
      calc {
        AllFiles(order, place, m, i);
        == { AllFilesStep(order, place, m, i); }
        AllFiles(order, place, m, i - 1) + multiset{order[i - 1]};
        ==
        multiset(order[..i - 1]) + multiset{order[i - 1]};
        ==
        multiset(order[..i - 1] + [order[i - 1]]);
      }
    }
  }
}
