/** Sums over the member rows: how a total moves when rows change, and how the totals of a campaign
    relate to each other. */
module CampaignTotals {
  import opened CampaignBudget

  /** What the row of `s` adds to a sum; a session without a row adds nothing. */
  ghost function At(ms: map<SessionId, Member>, s: SessionId, f: Member -> int): int {
    if s in ms then f(ms[s]) else 0
  }

  lemma {:induction false} SumSplit(ms: map<SessionId, Member>, s: SessionId, f: Member -> int)
    requires s in ms
    ensures Sum(ms, f) == f(ms[s]) + Sum(ms - {s}, f)
    decreases |ms|
  {
    var t :| t in ms && Sum(ms, f) == f(ms[t]) + Sum(ms - {t}, f);
    if t != s {
      assert (ms - {t})[s] == ms[s];
      SumSplit(ms - {t}, s, f);
      SumSplit(ms - {s}, t, f);
      assert ms - {t} - {s} == ms - {s} - {t};
    }
  }

  lemma SumWithout(ms: map<SessionId, Member>, s: SessionId, f: Member -> int)
    ensures Sum(ms, f) == At(ms, s, f) + Sum(ms - {s}, f)
  {
    if s in ms {
      SumSplit(ms, s, f);
    } else {
      assert ms - {s} == ms;
    }
  }

  /** Replacing one row moves a total by exactly what the row's own value moves. */
  lemma SumUpdate(ms: map<SessionId, Member>, s: SessionId, m: Member, f: Member -> int)
    ensures Sum(ms[s := m], f) == Sum(ms, f) - At(ms, s, f) + f(m)
  {
    SumWithout(ms, s, f);
    SumWithout(ms[s := m], s, f);
    assert ms[s := m] - {s} == ms - {s};
  }

  ghost predicate Below(ms: map<SessionId, Member>, ns: map<SessionId, Member>, f: Member -> int) {
    forall s :: At(ms, s, f) <= At(ns, s, f)
  }

  lemma BelowWithout(ms: map<SessionId, Member>, ns: map<SessionId, Member>, s: SessionId, f: Member -> int)
    requires Below(ms, ns, f)
    ensures Below(ms - {s}, ns - {s}, f)
  {
    forall t ensures At(ms - {s}, t, f) <= At(ns - {s}, t, f) {
      assert At(ms, t, f) <= At(ns, t, f);
    }
  }

  /** A sum grows with every row it adds up, whichever rows come and go. */
  lemma {:induction false} SumMonotone(ms: map<SessionId, Member>, ns: map<SessionId, Member>, f: Member -> int)
    requires Below(ms, ns, f)
    ensures Sum(ms, f) <= Sum(ns, f)
    decreases ms.Keys + ns.Keys
  {
    var ids := ms.Keys + ns.Keys;
    if ids == {} {
      assert ms == map[] && ns == map[];
    } else {
      var s :| s in ids;
      SumWithout(ms, s, f);
      SumWithout(ns, s, f);
      BelowWithout(ms, ns, s, f);
      assert (ms - {s}).Keys + (ns - {s}).Keys == ids - {s};
      SumMonotone(ms - {s}, ns - {s}, f);
      assert At(ms, s, f) <= At(ns, s, f);
    }
  }

  lemma SumSame(ms: map<SessionId, Member>, ns: map<SessionId, Member>, f: Member -> int)
    requires Below(ms, ns, f) && Below(ns, ms, f)
    ensures Sum(ms, f) == Sum(ns, f)
  {
    SumMonotone(ms, ns, f);
    SumMonotone(ns, ms, f);
  }

  /** Sums add up row by row. */
  lemma {:induction false} SumAdds(ms: map<SessionId, Member>, f: Member -> int, g: Member -> int, h: Member -> int)
    requires forall m :: h(m) == f(m) + g(m)
    ensures Sum(ms, h) == Sum(ms, f) + Sum(ms, g)
    decreases |ms|
  {
    if ms == map[] {
    } else {
      var s :| s in ms;
      SumSplit(ms, s, f);
      SumSplit(ms, s, g);
      SumSplit(ms, s, h);
      SumAdds(ms - {s}, f, g, h);
    }
  }

  lemma SumNotNegative(ms: map<SessionId, Member>, f: Member -> int)
    requires forall s :: s in ms ==> 0 <= f(ms[s])
    ensures 0 <= Sum(ms, f)
    decreases |ms|
  {
    assert Sum(map[], f) == 0;
    forall s ensures At(map[], s, f) <= At(ms, s, f) {}
    SumMonotone(map[], ms, f);
  }

  /** Spend and unspent reservations are the total; the total is what is held plus the excess. */
  lemma TotalSplits(l: Ledger, root: SessionId, d: Dim)
    ensures Total(l, root, d) == Actual(l, root, d) + Outstanding(l, root, d)
    ensures Total(l, root, d) == Held(l, root, d) + Excess(l, root, d)
    ensures 0 <= Excess(l, root, d) && 0 <= Outstanding(l, root, d) && 0 <= Actual(l, root, d)
  {
    SumAdds(l.members, SpentIn(root, d), UnspentIn(root, d), CoveredIn(root, d));
    SumAdds(l.members, HeldIn(root, d), ExcessIn(root, d), CoveredIn(root, d));
    SumNotNegative(l.members, ExcessIn(root, d));
    SumNotNegative(l.members, UnspentIn(root, d));
    SumNotNegative(l.members, SpentIn(root, d));
  }
}
