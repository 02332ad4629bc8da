/** Loads of an assignment of weights to shards, and how far a greedy assignment can exceed ANY other
    one that has the same preload on shard 0. */
module ShardLoads {

  ghost predicate NonIncreasing(ws: seq<nat>) {
    forall i, j :: 0 <= i < j < |ws| ==> ws[j] <= ws[i]
  }

  // ----- loads of an assignment -----

  /** Load of shard `k` after the first `i` files, when file `j` goes to shard `place[j]`. */
  function Load(ws: seq<nat>, place: seq<nat>, preload: nat, k: nat, i: nat): nat
    requires i <= |ws| && i <= |place|
  {
    if i == 0 then (if k == 0 then preload else 0)
    else Load(ws, place, preload, k, i - 1) + if place[i - 1] == k then ws[i - 1] else 0
  }

  /** `place` assigns every file one of `m` shards. */
  ghost predicate Assigns(ws: seq<nat>, place: seq<nat>, m: nat) {
    |place| == |ws| && forall i :: 0 <= i < |place| ==> place[i] < m
  }

  /** No shard of the assignment carries more than `most`. */
  ghost predicate Within(ws: seq<nat>, place: seq<nat>, preload: nat, m: nat, most: nat) {
    Assigns(ws, place, m) && forall k: nat :: k < m ==> Load(ws, place, preload, k, |ws|) <= most
  }

  /** File `i` joined a shard that was least loaded when it was placed. */
  ghost predicate JoinedLeast(ws: seq<nat>, place: seq<nat>, preload: nat, m: nat, i: nat)
    requires i < |ws| && i < |place|
  {
    forall k: nat :: k < m ==> Load(ws, place, preload, place[i], i) <= Load(ws, place, preload, k, i)
  }

  ghost predicate Greedy(ws: seq<nat>, place: seq<nat>, preload: nat, m: nat) {
    && Assigns(ws, place, m)
    && forall i :: 0 <= i < |ws| ==> JoinedLeast(ws, place, preload, m, i)
  }

  function Sum(ws: seq<nat>, i: nat): nat
    requires i <= |ws|
  {
    if i == 0 then 0 else Sum(ws, i - 1) + ws[i - 1]
  }

  function TotalLoad(ws: seq<nat>, place: seq<nat>, preload: nat, m: nat, i: nat): nat
    requires i <= |ws| == |place|
  {
    if m == 0 then 0 else TotalLoad(ws, place, preload, m - 1, i) + Load(ws, place, preload, m - 1, i)
  }

  lemma {:induction false} TotalStep(ws: seq<nat>, place: seq<nat>, preload: nat, m: nat, i: nat)
    requires 0 < i <= |ws| == |place|
    ensures TotalLoad(ws, place, preload, m, i)
         == TotalLoad(ws, place, preload, m, i - 1) + if place[i - 1] < m then ws[i - 1] else 0
  {
    if m > 0 {
      TotalStep(ws, place, preload, m - 1, i);
    }
  }

  lemma {:induction false} TotalStart(ws: seq<nat>, place: seq<nat>, preload: nat, m: nat)
    requires |ws| == |place|
    ensures TotalLoad(ws, place, preload, m, 0) == if m == 0 then 0 else preload
  {
    if m > 0 {
      TotalStart(ws, place, preload, m - 1);
    }
  }

  /** Conservation: the shards together carry the preload and every file placed so far. */
  lemma {:induction false} LoadsAddUp(ws: seq<nat>, place: seq<nat>, preload: nat, m: nat, i: nat)
    requires Assigns(ws, place, m) && 0 < m && i <= |ws|
    ensures TotalLoad(ws, place, preload, m, i) == preload + Sum(ws, i)
  {
    if i == 0 {
      TotalStart(ws, place, preload, m);
    } else {
      TotalStep(ws, place, preload, m, i);
      LoadsAddUp(ws, place, preload, m, i - 1);
    }
  }

  lemma {:induction false} TotalBetween(ws: seq<nat>, place: seq<nat>, preload: nat, m: nat, i: nat, least: nat, most: nat)
    requires i <= |ws| == |place|
    requires forall k: nat :: k < m ==> least <= Load(ws, place, preload, k, i) <= most
    ensures m * least <= TotalLoad(ws, place, preload, m, i) <= m * most
  {
    if m > 0 {
      TotalBetween(ws, place, preload, m - 1, i, least, most);
      assert m * least == (m - 1) * least + least && m * most == (m - 1) * most + most;
    }
  }

  lemma {:induction false} LoadGrows(ws: seq<nat>, place: seq<nat>, preload: nat, k: nat, i: nat, n: nat)
    requires i <= n <= |ws| == |place|
    ensures Load(ws, place, preload, k, i) <= Load(ws, place, preload, k, n)
    ensures Sum(ws, i) <= Sum(ws, n)
    decreases n
  {
    if i < n {
      LoadGrows(ws, place, preload, k, i, n - 1);
    }
  }

  /** The last file on shard `k` among the first `i`, if any, made its final load. */
  lemma {:induction false} LastFile(ws: seq<nat>, place: seq<nat>, preload: nat, k: nat, i: nat) returns (j: int)
    requires i <= |ws| == |place|
    ensures -1 <= j < i
    ensures j == -1 ==> Load(ws, place, preload, k, i) == (if k == 0 then preload else 0)
    ensures j == -1 ==> k !in place[..i]
    ensures j >= 0 ==> k !in place[j + 1..i]
    ensures j >= 0 ==> place[j] == k && Load(ws, place, preload, k, i) == Load(ws, place, preload, k, j) + ws[j]
  {
    if i == 0 {
      j := -1;
    } else if place[i - 1] == k {
      j := i - 1;
    } else {
      j := LastFile(ws, place, preload, k, i - 1);
      assert place[..i] == place[..i - 1] + [place[i - 1]];
      if j >= 0 {
        assert place[j + 1..i] == place[j + 1..i - 1] + [place[i - 1]];
      }
    }
  }

  lemma {:induction false} Untouched(ws: seq<nat>, place: seq<nat>, preload: nat, k: nat, i: nat)
    requires i <= |ws| == |place| && k !in place[..i]
    ensures Load(ws, place, preload, k, i) == (if k == 0 then preload else 0)
  {
    if i > 0 {
      assert place[i - 1] == place[..i][i - 1];
      assert k !in place[..i - 1];
      Untouched(ws, place, preload, k, i - 1);
    }
  }

  /** A shard holding two files carries at least both, and shard 0 its preload as well. */
  lemma FilesWeigh(ws: seq<nat>, place: seq<nat>, preload: nat, i: nat, j: nat)
    requires |ws| == |place| && i <= j < |ws| && place[i] == place[j]
    ensures Load(ws, place, preload, place[i], |ws|)
         >= (if i < j then ws[i] + ws[j] else ws[j]) + if place[i] == 0 then preload else 0
  {
    var k := place[i];
    LoadGrows(ws, place, preload, k, 0, i);
    LoadGrows(ws, place, preload, k, i + 1, |ws|);
    LoadGrows(ws, place, preload, k, j + 1, |ws|);
    if i < j {
      LoadGrows(ws, place, preload, k, i + 1, j);
    }
  }

  // ----- counting -----

  function Elements(s: seq<nat>): set<nat> {
    set x | x in s
  }

  lemma {:induction false} DistinctCount(s: seq<nat>)
    ensures |Elements(s)| <= |s|
    ensures (forall i, j :: 0 <= i < j < |s| ==> s[i] != s[j]) ==> |Elements(s)| == |s|
  {
    if s != [] {
      var front, last := s[..|s| - 1], s[|s| - 1];
      DistinctCount(front);
      assert s == front + [last];
      assert Elements(s) == Elements(front) + {last};
    }
  }

  function Range(lo: nat, hi: nat): (r: set<nat>)
    ensures forall x: nat :: x in r <==> lo <= x < hi
    ensures lo <= hi ==> |r| == hi - lo
    decreases hi
  {
    if hi <= lo then {} else Range(lo, hi - 1) + {hi - 1}
  }

  lemma SubsetCount(a: set<nat>, b: set<nat>)
    requires a <= b
    ensures |a| <= |b|
    ensures |a| == |b| ==> a == b
  {
    assert b == a + (b - a);
  }

  // ----- makespan -----

  /** Graham's argument: when file `j` was placed, no shard was below the one it joined. */
  lemma PlacedOnLeast(ws: seq<nat>, place: seq<nat>, other: seq<nat>, preload: nat, m: nat, most: nat, j: nat)
    requires Greedy(ws, place, preload, m) && Within(ws, other, preload, m, most) && j < |ws|
    ensures m * Load(ws, place, preload, place[j], j) + ws[j] <= m * most
  {
    var least := Load(ws, place, preload, place[j], j);
    assert JoinedLeast(ws, place, preload, m, j);
    var top := preload + Sum(ws, j);
    forall k: nat | k < m ensures Load(ws, place, preload, k, j) <= top {
      Carries(ws, place, preload, k, j);
    }
    TotalBetween(ws, place, preload, m, j, least, top);
    LoadsAddUp(ws, place, preload, m, j);
    LoadGrows(ws, place, preload, 0, j + 1, |ws|);
    LoadsAddUp(ws, other, preload, m, |ws|);
    TotalBetween(ws, other, preload, m, |ws|, 0, most);
  }

  lemma {:induction false} Carries(ws: seq<nat>, place: seq<nat>, preload: nat, k: nat, i: nat)
    requires i <= |ws| == |place|
    ensures Load(ws, place, preload, k, i) <= preload + Sum(ws, i)
  {
    if i > 0 {
      Carries(ws, place, preload, k, i - 1);
    }
  }

  /** Files heavier than half the other makespan are there alone on their shards, so there are at
      most `m` of them; when there are `m`, one of them shares shard 0 with the preload. */
  lemma BigFilesAreAlone(ws: seq<nat>, other: seq<nat>, preload: nat, m: nat, most: nat, j: nat)
    requires NonIncreasing(ws) && Within(ws, other, preload, m, most)
    requires j < |ws| && 2 * ws[j] > most
    ensures j < m
    ensures j == m - 1 ==> exists i: nat :: i <= j && other[i] == 0
  {
    var upTo := other[..j + 1];
    forall a, b | 0 <= a < b < |upTo| ensures upTo[a] != upTo[b] {
      if other[a] == other[b] {
        FilesWeigh(ws, other, preload, a, b);
      }
    }
    DistinctCount(upTo);
    assert Elements(upTo) <= Range(0, m) by {
      forall x | x in Elements(upTo) ensures x in Range(0, m) {
        var i :| 0 <= i < |upTo| && upTo[i] == x;
        assert other[i] < m;
      }
    }
    SubsetCount(Elements(upTo), Range(0, m));
    if j == m - 1 {
      assert 0 in Range(0, m);
      var i: nat :| i < |upTo| && upTo[i] == 0;
      assert other[i] == 0;
    }
  }

  /** While fewer than `m` files are placed, some shard holds no file; if every shard but the first
      holds one, the first is that shard. */
  lemma SomeShardIsFree(place: seq<nat>, m: nat) returns (k: nat)
    requires |place| < m && forall i :: 0 <= i < |place| ==> place[i] < m
    ensures k < m && k !in place
    ensures k == 0 ==> |place| == m - 1
  {
    if free: nat :| 1 <= free < m && free !in place {
      k := free;
    } else {
      assert Range(1, m) <= Elements(place);
      DistinctCount(place);
      SubsetCount(Range(1, m), Elements(place));
      assert Range(1, m) == Elements(place);
      assert 0 !in Elements(place);
      k := 0;
    }
  }

  /** Files beside the preload of shard 0 in the other assignment. */
  lemma BesidePreload(ws: seq<nat>, other: seq<nat>, preload: nat, m: nat, most: nat, a: nat, b: nat)
    requires Within(ws, other, preload, m, most) && a <= b < |ws| && other[a] == 0 && other[b] == 0
    ensures preload + (if a < b then ws[a] + ws[b] else ws[b]) <= most
  {
    FilesWeigh(ws, other, preload, a, b);
  }

  lemma Lighter(ws: seq<nat>, a: nat, b: nat)
    requires NonIncreasing(ws) && a <= b < |ws|
    ensures ws[b] <= ws[a]
  {
  }

  /** When `m` files are heavier than half the other makespan, the lightest fits beside the preload. */
  lemma LastBigFileFits(ws: seq<nat>, other: seq<nat>, preload: nat, m: nat, most: nat, j: nat)
    requires NonIncreasing(ws) && Within(ws, other, preload, m, most) && j < |ws| && 2 * ws[j] > most && j == m - 1
    ensures preload + ws[j] <= most
  {
    BigFilesAreAlone(ws, other, preload, m, most, j);
    var i: nat :| i <= j && other[i] == 0;
    BesidePreload(ws, other, preload, m, most, i, i);
    Lighter(ws, i, j);
  }

  lemma LeastIsLeast(ws: seq<nat>, place: seq<nat>, preload: nat, m: nat, j: nat, k: nat)
    requires Greedy(ws, place, preload, m) && j < |ws| && k < m
    ensures Load(ws, place, preload, place[j], j) <= Load(ws, place, preload, k, j)
  {
    assert JoinedLeast(ws, place, preload, m, j);
  }

  /** A file heavier than half the other assignment's makespan ends within that makespan: there
      every shard holds at most one such file, so longest-first has an empty shard left for it, or
      it is the one file that shares shard 0 with the preload. */
  lemma BigFileFits(ws: seq<nat>, place: seq<nat>, other: seq<nat>, preload: nat, m: nat, most: nat, j: nat)
    requires NonIncreasing(ws)
    requires Greedy(ws, place, preload, m) && Within(ws, other, preload, m, most)
    requires j < |ws| && 2 * ws[j] > most
    ensures Load(ws, place, preload, place[j], j) + ws[j] <= most
  {
    BigFilesAreAlone(ws, other, preload, m, most, j);
    var free := SomeShardIsFree(place[..j], m);
    assert Load(ws, place, preload, free, j) == if free == 0 then preload else 0 by {
      Untouched(ws, place, preload, free, j);
    }
    assert ws[j] <= most by {
      FilesWeigh(ws, other, preload, j, j);
    }
    if free == 0 { LastBigFileFits(ws, other, preload, m, most, j); }
    LeastIsLeast(ws, place, preload, m, j, free);
  }

  // ----- units: how many files of a third a shard has room for -----

  /** What each file takes of a shard that holds two files: all of it, where it is too heavy to share a
      shard with another file. */
  function Units(ws: seq<nat>, alone: int): (us: seq<nat>)
    ensures |us| == |ws|
    ensures forall i :: 0 <= i < |ws| ==> us[i] == if ws[i] > alone then 2 else 1
  {
    seq(|ws|, i requires 0 <= i < |ws| => if ws[i] > alone then 2 else 1)
  }

  function Start(preload: nat, k: nat): nat { if k == 0 then preload else 0 }

  lemma {:induction false} PreloadAdds(ws: seq<nat>, place: seq<nat>, preload: nat, k: nat, i: nat)
    requires i <= |ws| == |place|
    ensures Load(ws, place, preload, k, i) == Start(preload, k) + Load(ws, place, 0, k, i)
  {
    if i > 0 {
      PreloadAdds(ws, place, preload, k, i - 1);
    }
  }

  /** Files of more than a third of `most` each, weighed by their units. */
  lemma {:induction false} UnitsWeigh(ws: seq<nat>, place: seq<nat>, preload: nat, k: nat, i: nat, w: nat, most: nat)
    requires i <= |ws| == |place| && most < 3 * w && forall a :: 0 <= a < i ==> w <= ws[a]
    ensures var u, load := Load(Units(ws, most - w), place, 0, k, i), Load(ws, place, preload, k, i) - Start(preload, k);
      && load >= 0
      && (u >= 1 ==> load >= w)
      && (u >= 2 ==> load > most - w)
      && (u >= 3 ==> load > most)
  {
    if i > 0 {
      UnitsWeigh(ws, place, preload, k, i - 1, w, most);
    }
  }

  /** A shard with no unit holds no file; a shard with one holds one that could share it. */
  lemma {:induction false} FewUnits(ws: seq<nat>, place: seq<nat>, preload: nat, k: nat, i: nat, alone: int)
    requires i <= |ws| == |place| && 0 <= alone
    ensures var u, load := Load(Units(ws, alone), place, 0, k, i), Load(ws, place, preload, k, i);
      && (u == 0 ==> load == Start(preload, k))
      && (u <= 1 ==> load <= Start(preload, k) + alone)
  {
    if i > 0 {
      FewUnits(ws, place, preload, k, i - 1, alone);
    }
  }

  /** A shard with two units that holds a file of two holds nothing else. */
  lemma {:induction false} BigIsAlone(ws: seq<nat>, place: seq<nat>, preload: nat, i: nat, alone: int, big: nat)
    requires big < i <= |ws| == |place| && 0 <= alone < ws[big]
    requires Load(Units(ws, alone), place, 0, place[big], i) <= 2
    ensures Load(ws, place, preload, place[big], i) == Start(preload, place[big]) + ws[big]
  {
    var k := place[big];
    LoadGrows(Units(ws, alone), place, 0, k, 0, big);
    if big < i - 1 {
      LoadGrows(Units(ws, alone), place, 0, k, big + 1, i - 1);
      BigIsAlone(ws, place, preload, i - 1, alone, big);
    } else {
      FewUnits(ws, place, preload, k, big, alone);
    }
  }

  // ----- sums over shards -----

  lemma {:induction false} TotalAtLeast(ws: seq<nat>, place: seq<nat>, preload: nat, m: nat, i: nat, least: nat, s: nat)
    requires i <= |ws| == |place|
    requires forall k: nat :: k < m && k != s ==> least <= Load(ws, place, preload, k, i)
    ensures TotalLoad(ws, place, preload, m, i)
         >= if s < m then least * (m - 1) + Load(ws, place, preload, s, i) else least * m
  {
    if m > 0 {
      TotalAtLeast(ws, place, preload, m - 1, i, least, s);
      Spread(least, m - 1, 1);
      if 1 < m { Spread(least, m - 2, 1); }
    }
  }

  lemma {:induction false} TotalAtMost(ws: seq<nat>, place: seq<nat>, preload: nat, m: nat, i: nat, most: nat, s: nat)
    requires i <= |ws| == |place|
    requires forall k: nat :: k < m && k != s ==> Load(ws, place, preload, k, i) <= most
    ensures TotalLoad(ws, place, preload, m, i)
         <= if s < m then most * (m - 1) + Load(ws, place, preload, s, i) else most * m
  {
    if m > 0 {
      TotalAtMost(ws, place, preload, m - 1, i, most, s);
      Spread(most, m - 1, 1);
      if 1 < m { Spread(most, m - 2, 1); }
    }
  }

  // ----- a last file of more than a third -----

  /** File `j` weighs between a third and a half of `most`, and ends beyond 5/4 of it. */
  ghost predicate EndsHigh(ws: seq<nat>, place: seq<nat>, other: seq<nat>, preload: nat, m: nat, most: nat, j: nat) {
    && NonIncreasing(ws) && Greedy(ws, place, preload, m) && Within(ws, other, preload, m, most)
    && j < |ws| && most < 3 * ws[j] && 2 * ws[j] <= most
    && 4 * (Load(ws, place, preload, place[j], j) + ws[j]) > 5 * most
  }

  /** In the other assignment no shard has more than two units, up to and including file `j`. */
  lemma OtherUnits(ws: seq<nat>, other: seq<nat>, preload: nat, m: nat, most: nat, j: nat, k: nat)
    requires NonIncreasing(ws) && Within(ws, other, preload, m, most) && j < |ws| && most < 3 * ws[j] && k < m
    ensures var u := Load(Units(ws, most - ws[j]), other, 0, k, j + 1);
      && u <= 2
      && (u >= 1 ==> Start(preload, k) + ws[j] <= most)
  {
    UnitsWeigh(ws, other, preload, k, j + 1, ws[j], most);
    LoadGrows(ws, other, preload, k, j + 1, |ws|);
  }

  /** When file `j` is placed, every other shard but the first has at least two units. */
  lemma GreedyUnits(ws: seq<nat>, place: seq<nat>, other: seq<nat>, preload: nat, m: nat, most: nat, j: nat, k: nat)
    requires EndsHigh(ws, place, other, preload, m, most, j) && k < m && Start(preload, k) == 0
    ensures Load(Units(ws, most - ws[j]), place, 0, k, j) >= 2
  {
    assert JoinedLeast(ws, place, preload, m, j);
    FewUnits(ws, place, preload, k, j, most - ws[j]);
  }

  /** Counting units: shard 0 has at most one, and when it has one nothing is to spare: no other shard
      has more than two, and the other assignment has two on shard 0. */
  lemma UnitsAreFull(ws: seq<nat>, place: seq<nat>, other: seq<nat>, preload: nat, m: nat, most: nat, j: nat, s: nat)
    requires EndsHigh(ws, place, other, preload, m, most, j) && s < m
    ensures var us := Units(ws, most - ws[j]);
      var mine, theirs := Load(us, place, 0, 0, j), Load(us, other, 0, 0, j + 1);
      && 0 < preload
      && mine < theirs
      && (mine == 1 && s > 0 ==> Load(us, place, 0, s, j) <= 2)
  {
    var us, upTo := Units(ws, most - ws[j]), j + 1;
    forall k: nat | k < m ensures Load(us, other, 0, k, upTo) <= 2 {
      OtherUnits(ws, other, preload, m, most, j, k);
    }
    forall k: nat | k < m && Start(preload, k) == 0 ensures Load(us, place, 0, k, j) >= 2 {
      GreedyUnits(ws, place, other, preload, m, most, j, k);
    }
    TotalAtMost(us, other, 0, m, j + 1, 2, 0);
    TotalAtLeast(us, place, 0, m, j, 2, 0);
    LoadsAddUp(us, other, 0, m, j + 1);
    LoadsAddUp(us, place, 0, m, j);
    if s > 0 && Load(us, place, 0, 0, j) == 1 {
      forall k: nat | k < m ensures Load(us, place, 1, k, j) == Start(1, k) + Load(us, place, 0, k, j) {
        PreloadAdds(us, place, 1, k, j);
      }
      TotalAtLeast(us, place, 1, m, j, 2, s);
      LoadsAddUp(us, place, 1, m, j);
    }
  }

  /** The first shard holds no file: then the other assignment has none there either. */
  lemma FirstShardIsNotEmpty(ws: seq<nat>, place: seq<nat>, other: seq<nat>, preload: nat, m: nat, most: nat, j: nat)
    requires EndsHigh(ws, place, other, preload, m, most, j)
    ensures Load(Units(ws, most - ws[j]), place, 0, 0, j) == 1 && Load(Units(ws, most - ws[j]), other, 0, 0, j + 1) == 2
  {
    assert place[j] < m;
    assert JoinedLeast(ws, place, preload, m, j);
    UnitsAreFull(ws, place, other, preload, m, most, j, 0);
    OtherUnits(ws, other, preload, m, most, j, 0);
    FewUnits(ws, place, preload, 0, j, most - ws[j]);
  }

  /** A file that shares a shard with no unit to spare is alone on it. */
  lemma BigLoad(ws: seq<nat>, place: seq<nat>, preload: nat, j: nat, alone: int, g: nat)
    requires g < j <= |ws| == |place| && 0 <= alone < ws[g]
    requires Load(Units(ws, alone), place, 0, 0, j) <= 1 && Load(Units(ws, alone), place, 0, place[g], j) <= 2
    ensures Load(ws, place, preload, place[g], j) == ws[g]
  {
    var us, k := Units(ws, alone), place[g];
    LoadGrows(us, place, 0, k, 0, g);
    LoadGrows(us, place, 0, k, g + 1, j);
    BigIsAlone(ws, place, preload, j, alone, g);
  }

  /** The least load is at most that of a big file alone, and of a file that could share beside the preload. */
  lemma BelowBig(ws: seq<nat>, place: seq<nat>, preload: nat, m: nat, j: nat, alone: int, g: nat)
    requires Greedy(ws, place, preload, m) && g < j < |ws| && 0 <= alone < ws[g]
    requires Load(Units(ws, alone), place, 0, 0, j) <= 1 && Load(Units(ws, alone), place, 0, place[g], j) <= 2
    ensures Load(ws, place, preload, place[j], j) <= ws[g] && Load(ws, place, preload, place[j], j) <= preload + alone
  {
    assert Load(ws, place, preload, place[g], j) == ws[g] by { BigLoad(ws, place, preload, j, alone, g); }
    LeastIsLeast(ws, place, preload, m, j, place[g]);
    assert Load(ws, place, preload, 0, j) <= preload + alone by { FewUnits(ws, place, preload, 0, j, alone); }
    LeastIsLeast(ws, place, preload, m, j, 0);
  }

  /** The other assignment has a big file `g` on shard 0: it fits beside the preload there, and here it
      is alone on another shard. */
  lemma BigBesidePreload(ws: seq<nat>, place: seq<nat>, other: seq<nat>, preload: nat, m: nat, most: nat, j: nat, g: nat)
    requires Greedy(ws, place, preload, m) && Within(ws, other, preload, m, most)
    requires j < |ws| && 2 * ws[j] <= most && g < j && other[g] == 0 && ws[g] > most - ws[j]
    requires Load(Units(ws, most - ws[j]), place, 0, 0, j) <= 1 && Load(Units(ws, most - ws[j]), place, 0, place[g], j) <= 2
    ensures 4 * (Load(ws, place, preload, place[j], j) + ws[j]) <= 5 * most
  {
    BelowBig(ws, place, preload, m, j, most - ws[j], g);
    BesidePreload(ws, other, preload, m, most, g, g);
  }

  /** The first file of a preloaded shard that holds one. */
  lemma FirstFile(ws: seq<nat>, place: seq<nat>, preload: nat, m: nat, j: nat, alone: int) returns (f: nat)
    requires Greedy(ws, place, preload, m) && j < |ws| && 0 <= alone && Load(Units(ws, alone), place, 0, 0, j) == 1
    ensures f < j && place[f] == 0 && Load(ws, place, preload, 0, f) == preload
    ensures Load(ws, place, preload, place[j], j) <= preload + ws[f]
  {
    var last := LastFile(ws, place, preload, 0, j);
    FirstFileOf(ws, place, preload, j, alone, last);
    LeastIsLeast(ws, place, preload, m, j, 0);
    f := last;
  }

  /** A file of more than half that is no heavier than `m - 1` others: one as heavy shares shard 0 with
      another file in the other assignment. */
  lemma HeavyPartner(ws: seq<nat>, other: seq<nat>, preload: nat, m: nat, most: nat, j: nat, x: nat, y: nat, f: nat)
    requires NonIncreasing(ws) && Within(ws, other, preload, m, most)
    requires y < x <= j < |ws| && other[x] == 0 && other[y] == 0
    requires m - 1 <= f <= j && 2 * ws[f] > most
    ensures preload + ws[f] + ws[j] <= most
  {
    BigFilesAreAlone(ws, other, preload, m, most, f);
    var i: nat :| i <= f && other[i] == 0;
    var partner := if i == x then y else x;
    if i < partner {
      BesidePreload(ws, other, preload, m, most, i, partner);
    } else {
      BesidePreload(ws, other, preload, m, most, partner, i);
    }
    Lighter(ws, i, f);
    Lighter(ws, partner, j);
  }

  /** The other assignment has two files `x` and `y` on shard 0; here it holds one. */
  lemma TwoBesidePreload(ws: seq<nat>, place: seq<nat>, other: seq<nat>, preload: nat, m: nat, most: nat, j: nat, x: nat, y: nat)
    requires NonIncreasing(ws) && Greedy(ws, place, preload, m) && Within(ws, other, preload, m, most)
    requires j < |ws| && most < 3 * ws[j] && 2 * ws[j] <= most && 0 < preload
    requires y < x <= j && other[x] == 0 && other[y] == 0
    requires Load(Units(ws, most - ws[j]), place, 0, 0, j) == 1
    ensures 4 * (Load(ws, place, preload, place[j], j) + ws[j]) <= 5 * most
  {
    var f := FirstFile(ws, place, preload, m, j, most - ws[j]);
    if 2 * ws[f] > most {
      LastToStart(ws, place, preload, m, f);
      HeavyPartner(ws, other, preload, m, most, j, x, y, f);
    } else {
      BesidePreload(ws, other, preload, m, most, y, x);
      Lighter(ws, x, j);
      Lighter(ws, y, j);
    }
  }

  lemma FirstFileOf(ws: seq<nat>, place: seq<nat>, preload: nat, j: nat, alone: int, f: int)
    requires j <= |ws| == |place| && 0 <= alone && -1 <= f < j && Load(Units(ws, alone), place, 0, 0, j) == 1
    requires f == -1 ==> 0 !in place[..j]
    requires f >= 0 ==> place[f] == 0
    ensures f >= 0 && Load(ws, place, preload, 0, f) == preload
  {
    if f == -1 {
      Untouched(Units(ws, alone), place, 0, 0, j);
    } else {
      LoadGrows(Units(ws, alone), place, 0, 0, f + 1, j);
      FewUnits(ws, place, preload, 0, f, alone);
    }
  }

  /** A preloaded shard gets its first file only after every other shard has one. */
  lemma LastToStart(ws: seq<nat>, place: seq<nat>, preload: nat, m: nat, f: nat)
    requires Greedy(ws, place, preload, m) && 0 < preload && f < |ws| && place[f] == 0
    requires Load(ws, place, preload, 0, f) == preload
    ensures f >= m - 1
  {
    assert JoinedLeast(ws, place, preload, m, f);
    if f < m - 1 {
      var free := SomeShardIsFree(place[..f], m);
      Untouched(ws, place, preload, free, f);
    }
  }

  lemma ThirdToHalf(ws: seq<nat>, place: seq<nat>, other: seq<nat>, preload: nat, m: nat, most: nat, j: nat)
    requires EndsHigh(ws, place, other, preload, m, most, j)
    ensures 4 * (Load(ws, place, preload, place[j], j) + ws[j]) <= 5 * most
  {
    var us := Units(ws, most - ws[j]);
    FirstShardIsNotEmpty(ws, place, other, preload, m, most, j);
    var x := LastFile(us, other, 0, 0, j + 1);
    if us[x] == 2 {
      var k := place[x];
      UnitsAreFull(ws, place, other, preload, m, most, j, k);
      BigIsElsewhere(us, place, j, x);
      BigBesidePreload(ws, place, other, preload, m, most, j, x);
    } else {
      var y := LastFile(us, other, 0, 0, x);
      UnitsAreFull(ws, place, other, preload, m, most, j, 0);
      TwoBesidePreload(ws, place, other, preload, m, most, j, x, y);
    }
  }

  lemma BigIsElsewhere(us: seq<nat>, place: seq<nat>, j: nat, x: nat)
    requires x < j <= |us| == |place| && us[x] == 2 && Load(us, place, 0, 0, j) <= 1
    ensures place[x] != 0
  {
    LoadGrows(us, place, 0, 0, 0, x);
    LoadGrows(us, place, 0, 0, x + 1, j);
  }

  /** A last file of more than a third of any other makespan ends within 5/4 of it. */
  lemma LargeLastFileBound(ws: seq<nat>, place: seq<nat>, other: seq<nat>, preload: nat, m: nat, most: nat, j: nat)
    requires NonIncreasing(ws) && Greedy(ws, place, preload, m) && Within(ws, other, preload, m, most)
    requires j < |ws| && most < 3 * ws[j]
    ensures 4 * (Load(ws, place, preload, place[j], j) + ws[j]) <= 5 * most
  {
    if 2 * ws[j] > most {
      BigFileFits(ws, place, other, preload, m, most, j);
    } else if EndsHigh(ws, place, other, preload, m, most, j) {
      ThirdToHalf(ws, place, other, preload, m, most, j);
    }
  }

  // ----- the bounds -----

  /** The classical bound, where the last file of a shard weighs at most a third of the other makespan. */
  lemma SmallLastFileBound(ws: seq<nat>, place: seq<nat>, other: seq<nat>, preload: nat, m: nat, most: nat, j: nat)
    requires Greedy(ws, place, preload, m) && Within(ws, other, preload, m, most)
    requires j < |ws| && 3 * ws[j] <= most
    requires forall i :: j < i < |ws| ==> place[i] != place[j]
    ensures 3 * m * Load(ws, place, preload, place[j], |ws|) <= (4 * m - 1) * most
  {
    var last := LastFile(ws, place, preload, place[j], |ws|);
    assert place[..|ws|][j] == place[j];
    assert last >= j;
    assert last == j;
    PlacedOnLeast(ws, place, other, preload, m, most, j);
    LastFileBound(m, Load(ws, place, preload, place[j], j), ws[j], most, 3);
  }

  /** No shard of a longest-first assignment exceeds both 5/4 and 4/3 - 1/(3m) of any other makespan. */
  lemma MakespanBound(ws: seq<nat>, place: seq<nat>, other: seq<nat>, preload: nat, m: nat, most: nat, k: nat)
    requires NonIncreasing(ws) && Greedy(ws, place, preload, m) && Within(ws, other, preload, m, most) && k < m
    ensures var load := Load(ws, place, preload, k, |ws|);
      4 * load <= 5 * most || 3 * m * load <= (4 * m - 1) * most
  {
    var j := LastFile(ws, place, preload, k, |ws|);
    if j == -1 {
      LoadGrows(ws, other, preload, 0, 0, |ws|);
    } else if 3 * ws[j] <= most {
      assert forall i :: j < i < |ws| ==> place[i] == place[j + 1..][i - j - 1];
      SmallLastFileBound(ws, place, other, preload, m, most, j);
    } else {
      LargeLastFileBound(ws, place, other, preload, m, most, j);
    }
  }

  /** Nothing is exceeded on a single shard. */
  lemma SingleShard(ws: seq<nat>, place: seq<nat>, other: seq<nat>, preload: nat, most: nat)
    requires Assigns(ws, place, 1) && Within(ws, other, preload, 1, most)
    ensures Load(ws, place, preload, 0, |ws|) <= most
  {
    LoadsAddUp(ws, place, preload, 1, |ws|);
    LoadsAddUp(ws, other, preload, 1, |ws|);
    assert TotalLoad(ws, place, preload, 1, |ws|) == TotalLoad(ws, place, preload, 0, |ws|) + Load(ws, place, preload, 0, |ws|);
    assert TotalLoad(ws, other, preload, 1, |ws|) == TotalLoad(ws, other, preload, 0, |ws|) + Load(ws, other, preload, 0, |ws|);
  }

  lemma Widened(m: nat, load: nat, most: nat, a: nat, b: nat)
    requires a * load <= b * most && 0 < a && 3 * m * b <= (4 * m - 1) * a && 0 < m
    ensures 3 * m * load <= (4 * m - 1) * most
  {
    var n := 4 * m - 1;
    Scale(3 * m, a * load, b * most);
    Scale(most, 3 * m * b, n * a);
    calc {
      a * (3 * m * load);
      == { Shuffle(a, 3 * m, load); }
      3 * m * (a * load);
      <=
      3 * m * (b * most);
      == { Regroup(3 * m, b, most); }
      most * (3 * m * b);
      <=
      most * (n * a);
      == { Shuffle(most, n, a); Regroup(n, most, a); }
      a * (n * most);
    }
    if 3 * m * load > n * most { Strictly(a, n * most, 3 * m * load); }
  }

  lemma Shuffle(x: int, y: int, z: int)
    ensures x * (y * z) == y * (x * z)
  {
    Regroup(x, y, z);
    Regroup(y, x, z);
  }

  lemma Strictly(d: int, x: int, y: int)
    requires 0 < d && x < y
    ensures d * x < d * y
  {
  }

  /** The classical bound for `m` shards: 4/3 - 1/(3m), whatever the files, the preload and the other
      assignment. */
  ghost predicate FourThirds(m: nat) {
    forall ws, place, other, preload: nat, most: nat, k: nat ::
      NonIncreasing(ws) && Greedy(ws, place, preload, m) && Within(ws, other, preload, m, most) && k < m ==>
        3 * m * Load(ws, place, preload, k, |ws|) <= (4 * m - 1) * most
  }

  lemma FourThirdsHolds(ws: seq<nat>, place: seq<nat>, other: seq<nat>, preload: nat, m: nat, most: nat, k: nat)
    requires NonIncreasing(ws) && Greedy(ws, place, preload, m) && Within(ws, other, preload, m, most) && k < m
    requires m == 1 || 4 <= m
    ensures 3 * m * Load(ws, place, preload, k, |ws|) <= (4 * m - 1) * most
  {
    var load := Load(ws, place, preload, k, |ws|);
    if m == 1 {
      SingleShard(ws, place, other, preload, most);
    } else {
      MakespanBound(ws, place, other, preload, m, most, k);
      if 4 * load <= 5 * most { Widened(m, load, most, 4, 5); }
    }
  }

  /** One unit preloaded, a file of 3 and files of 2: longest-first reaches 5 where 4 is possible. */
  lemma FailsOnTwo(ws: seq<nat>, place: seq<nat>, other: seq<nat>)
    requires ws == [3, 2, 2] && place == [1, 0, 0] && other == [0, 1, 1]
    ensures NonIncreasing(ws) && Greedy(ws, place, 1, 2) && Within(ws, other, 1, 2, 4)
    ensures Load(ws, place, 1, 0, |ws|) == 5
  {
    forall k: nat | k < 2
      ensures Load(ws, place, 1, k, 0) == [1, 0][k] && Load(ws, place, 1, k, 1) == [1, 3][k]
      ensures Load(ws, place, 1, k, 2) == [3, 3][k] && Load(ws, place, 1, k, 3) == [5, 3][k]
      ensures Load(ws, other, 1, k, 3) == 4
    {
      assert Load(ws, place, 1, k, 0) == [1, 0][k];
      assert Load(ws, place, 1, k, 1) == [1, 3][k];
      assert Load(ws, place, 1, k, 2) == [3, 3][k];
      assert Load(ws, other, 1, k, 1) == [4, 0][k];
      assert Load(ws, other, 1, k, 2) == [4, 2][k];
    }
    forall i | 0 <= i < |ws| ensures JoinedLeast(ws, place, 1, 2, i) {
      assert i in {0, 1, 2};
    }
  }

  lemma FailsOnThree(ws: seq<nat>, place: seq<nat>, other: seq<nat>)
    requires ws == [3, 2, 2, 2, 2] && place == [1, 2, 0, 2, 0] && other == [0, 1, 1, 2, 2]
    ensures NonIncreasing(ws) && Greedy(ws, place, 1, 3) && Within(ws, other, 1, 3, 4)
    ensures Load(ws, place, 1, 0, |ws|) == 5
  {
    forall k: nat | k < 3
      ensures Load(ws, place, 1, k, 0) == [1, 0, 0][k] && Load(ws, place, 1, k, 1) == [1, 3, 0][k]
      ensures Load(ws, place, 1, k, 2) == [1, 3, 2][k] && Load(ws, place, 1, k, 3) == [3, 3, 2][k]
      ensures Load(ws, place, 1, k, 4) == [3, 3, 4][k] && Load(ws, place, 1, k, 5) == [5, 3, 4][k]
      ensures Load(ws, other, 1, k, 5) == 4
    {
      assert Load(ws, place, 1, k, 0) == [1, 0, 0][k];
      assert Load(ws, place, 1, k, 1) == [1, 3, 0][k];
      assert Load(ws, place, 1, k, 2) == [1, 3, 2][k];
      assert Load(ws, place, 1, k, 3) == [3, 3, 2][k];
      assert Load(ws, place, 1, k, 4) == [3, 3, 4][k];
      assert Load(ws, other, 1, k, 1) == [4, 0, 0][k];
      assert Load(ws, other, 1, k, 2) == [4, 2, 0][k];
      assert Load(ws, other, 1, k, 3) == [4, 4, 0][k];
      assert Load(ws, other, 1, k, 4) == [4, 4, 2][k];
    }
    forall i | 0 <= i < |ws| ensures JoinedLeast(ws, place, 1, 3, i) {
      assert i in {0, 1, 2, 3, 4};
    }
  }

  /** The classical bound holds for every number of shards but two and three. */
  lemma FourThirdsExactly(m: nat)
    requires 0 < m
    ensures FourThirds(m) <==> m != 2 && m != 3
  {
    if m == 2 {
      FailsOnTwo([3, 2, 2], [1, 0, 0], [0, 1, 1]);
    } else if m == 3 {
      FailsOnThree([3, 2, 2, 2, 2], [1, 2, 0, 2, 0], [0, 1, 1, 2, 2]);
    } else {
      forall ws, place, other, preload: nat, most: nat, k: nat
        | NonIncreasing(ws) && Greedy(ws, place, preload, m) && Within(ws, other, preload, m, most) && k < m
        ensures 3 * m * Load(ws, place, preload, k, |ws|) <= (4 * m - 1) * most
      {
        FourThirdsHolds(ws, place, other, preload, m, most, k);
      }
    }
  }

  // ----- arithmetic -----

  lemma LastFileBound(m: nat, below: nat, w: nat, most: nat, d: nat)
    requires 0 < m && m * below + w <= m * most && d * w <= most
    ensures d * m * (below + w) <= ((d + 1) * m - 1) * most
  {
    var mb, mw, mm, dw := m * below, m * w, m * most, d * w;
    Scale(d, mb + w, mm);
    Scale(m - 1, dw, most);
    calc {
      d * m * (below + w);
      == { Regroup(d, m, below + w); }
      d * (m * (below + w));
      == { Spread(m, below, w); }
      d * (mb + mw);
      == { Spread(d, mb + w, mw - w); }
      d * (mb + w) + d * (mw - w);
      == { assert mw - w == (m - 1) * w; Regroup(d, m - 1, w); Regroup(m - 1, d, w); }
      d * (mb + w) + (m - 1) * dw;
      <=
      d * mm + (m - 1) * most;
      == { Regroup(d, m, most); Spread(most, d * m, m - 1); }
      (d * m + (m - 1)) * most;
      == { assert (d + 1) * m - 1 == d * m + (m - 1); }
      ((d + 1) * m - 1) * most;
    }
  }

  lemma Regroup(x: int, y: int, z: int)
    ensures x * y * z == x * (y * z)
  {
  }

  lemma Spread(x: int, y: int, z: int)
    ensures x * (y + z) == x * y + x * z
  {
  }

  lemma Scale(d: nat, x: int, y: int)
    requires x <= y
    ensures d * x <= d * y
  {
  }
}
