/** A counter that lags behind the table, is missing or runs ahead: what undisturbed sends do to it. */
module SelfHealing {
  import opened Common
  import opened Domain
  import opened RoomModel

  /** Numbers `1..n`, the table of a room whose sends all succeeded. */
  ghost predicate Contiguous(used: set<nat>, n: nat) {
    forall q :: q in used <==> 1 <= q <= n
  }

  /** On a gapless table the next number is n + 1, whether the counter is missing, lags or is exact. */
  lemma GaplessContinues(used: set<nat>, counter: Option<nat>, n: nat)
    requires Contiguous(used, n)
    requires counter.Some? ==> counter.value <= n
    ensures NextFree(used, counter) == n + 1
    ensures Contiguous(used + {n + 1}, n + 1)
  {
    MaxOfIs(used, n);
  }

  /**
   * Sequence order follows persistence order in an undisturbed send exactly when the counter is
   * missing, not behind the table, or about to collide.
   */
  lemma OrderKeptIff(used: set<nat>, counter: Option<nat>)
    ensures (forall q :: q in used ==> q < NextFree(used, counter))
      <==> counter.None? || counter.value >= MaxOf(used) || counter.value + 1 in used
  {
    if counter.Some? && counter.value < MaxOf(used) && counter.value + 1 !in used {
      assert MaxOf(used) in used && NextFree(used, counter) == counter.value + 1;
    }
  }

  /** The free numbers a lagging counter still has to fill. */
  ghost function Gap(used: set<nat>, c: nat): set<nat> {
    set q | c < q < MaxOf(used) && q !in used
  }

  /** The table and counter after `k` undisturbed sends with unused keys. */
  ghost function AfterSends(used: set<nat>, c: nat, k: nat): (set<nat>, nat)
    decreases k
  {
    if k == 0 then (used, c) else
      var n := NextFree(used, Some(c));
      AfterSends(used + {n}, n, k - 1)
  }

  /** A send from a lagging counter fills one gap or jumps past the maximum. */
  lemma GapShrinks(used: set<nat>, c: nat)
    requires c < MaxOf(used)
    ensures var n := NextFree(used, Some(c));
      (n == MaxOf(used) + 1 && MaxOf(used + {n}) == n)
      || (n == c + 1 && n in Gap(used, c) && MaxOf(used + {n}) == MaxOf(used)
          && Gap(used + {n}, n) == Gap(used, c) - {n})
  {
    var n := NextFree(used, Some(c));
    if c + 1 in used {
      MaxOfIs(used + {n}, n);
    } else {
      assert MaxOf(used) in used;
      MaxOfIs(used + {n}, MaxOf(used));
    }
  }

  lemma {:induction false} AheadStaysAhead(used: set<nat>, c: nat, k: nat)
    requires c >= MaxOf(used)
    ensures var (used', c') := AfterSends(used, c, k); c' >= MaxOf(used')
    decreases k
  {
    if k > 0 {
      MaxOfIs(used + {c + 1}, c + 1);
      AheadStaysAhead(used + {c + 1}, c + 1, k - 1);
    }
  }

  /**
   * From any lagging counter, after (free numbers between the counter and the maximum) + 1 sends the
   * counter has caught up with the table, and it never falls behind again.
   */
  lemma {:induction false} LaggingCounterHeals(used: set<nat>, c: nat, k: nat)
    requires k >= |Gap(used, c)| + 1
    ensures var (used', c') := AfterSends(used, c, k); c' >= MaxOf(used')
    decreases k
  {
    if c >= MaxOf(used) {
      AheadStaysAhead(used, c, k);
    } else {
      var n := NextFree(used, Some(c));
      GapShrinks(used, c);
      if n == MaxOf(used) + 1 {
        AheadStaysAhead(used + {n}, n, k - 1);
      } else {
        LaggingCounterHeals(used + {n}, n, k - 1);
      }
    }
  }

  /** One send fewer can be too few: from counter `c`, a table holding only `m > c` needs them all. */
  lemma HealingBoundIsSharp(c: nat, m: nat)
    requires c < m
    ensures var (used', c') := AfterSends({m}, c, |Gap({m}, c)|); c' < MaxOf(used')
  {
    MaxOfIs({m}, m);
    GapSize(m, c);
    FillFrom({m}, c, m, m - c - 1);
  }

  lemma {:induction false} GapSize(m: nat, c: nat)
    requires c < m
    ensures |Gap({m}, c)| == m - c - 1
    decreases m - c
  {
    MaxOfIs({m}, m);
    if c + 1 < m {
      GapSize(m, c + 1);
      assert Gap({m}, c) == Gap({m}, c + 1) + {c + 1};
    } else {
      assert Gap({m}, c) == {};
    }
  }

  lemma {:induction false} FillFrom(used: set<nat>, c: nat, m: nat, k: nat)
    requires MaxOf(used) == m && c + k < m
    requires forall q :: c < q < m ==> q !in used
    ensures AfterSends(used, c, k).1 < MaxOf(AfterSends(used, c, k).0)
    decreases k
  {
    if k > 0 {
      GapShrinks(used, c);
      FillFrom(used + {c + 1}, c + 1, m, k - 1);
    }
  }
}
