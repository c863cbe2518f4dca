/**
  The life of a paid unload token on the clock: which period a purchase is for, until when its token is
  accepted, and from when the period is cleaned up. Times are seconds that fit 32 bits, and a period
  that would close later closes with the last of them.
*/
module PaidTokenTimes {
  import opened Prelude
  import opened Powers
  import opened PaidTokens
  import Ordered

  /** When period `p` is over for validation: its end, plus the expiry. */
  function Closing(cfg: Config, p: Period): nat {
    Min(U32_MAX, (p + 1) * cfg.length + cfg.expiry)
  }

  ghost predicate OnClock(now: nat, p: Period) {
    now <= U32_MAX && p < U32_MAX
  }

  lemma QuotientIsPeriod(now: nat, length: nat, p: nat)
    requires length > 0
    ensures now / length == p <==> p * length <= now < (p + 1) * length
  {
    DivRebuild(now, length);
    assert (p + 1) * length == p * length + length;
    if p * length <= now < (p + 1) * length {
      DivModUnique(now, length, p, now - p * length);
    }
  }

  /** A purchase is for the period its time falls into. */
  lemma PeriodOfTime(cfg: Config, now: nat, p: Period)
    requires now <= U32_MAX && cfg.length > 0
    ensures CurrentPeriod(cfg, now) == p <==> p * cfg.length <= now < (p + 1) * cfg.length
  {
    assert AsU32(now) == now;
    QuotientIsPeriod(now, cfg.length, p);
  }

  /** What `Expired` computes, where nothing leaves the word. */
  lemma ExpiryOnClock(cfg: Config, now: nat, p: Period)
    requires OnClock(now, p)
    ensures Expired(cfg, now, p) <==> now >= Closing(cfg, p)
  {
    assert AsU32(now) == now && AsU32(p + 1) == p + 1;
  }

  // ---------------------------------------------------------------------------------------------
  // Using
  // ---------------------------------------------------------------------------------------------

  /** The member sits in the ring of the period, and its token there has not been consumed. */
  ghost predicate Unspent(s: State, p: Period, i: nat, m: Member) {
    && p in s.service && i < |s.service[p].rings| && m in s.service[p].rings[i]
    && Token(p, i, m) !in s.consumed
  }

  /** A token is accepted exactly until its period closes, and then it is spent. */
  lemma ConsumedExactly(cfg: Config, s: State, now: nat, p: Period, i: nat, revisionOk: bool, genuine: bool, m: Member)
    requires OnClock(now, p)
    ensures var r := ConsumeSpec(cfg, s, now, p, i, revisionOk, genuine, m);
      && (r.Some? <==> revisionOk && genuine && Unspent(s, p, i, m) && now < Closing(cfg, p))
      && (r.Some? ==> r.value == s.(consumed := s.consumed + {Token(p, i, m)}))
  {
    ExpiryOnClock(cfg, now, p);
  }

  /** Bought now, a token lasts at least the expiry time beyond its period, hence at least that long from now. */
  lemma TokenLasts(cfg: Config, s: State, bought: nat, now: nat, i: nat, m: Member)
    requires cfg.length > 0 && bought <= now < U32_MAX
    requires var p := CurrentPeriod(cfg, bought); OnClock(now, p) && Unspent(s, p, i, m)
    requires now <= bought + cfg.expiry
    ensures ConsumeSpec(cfg, s, now, CurrentPeriod(cfg, bought), i, true, true, m).Some?
  {
    var p := CurrentPeriod(cfg, bought);
    PeriodOfTime(cfg, bought, p);
    ConsumedExactly(cfg, s, now, p, i, true, true, m);
  }

  // ---------------------------------------------------------------------------------------------
  // Buying
  // ---------------------------------------------------------------------------------------------

  /** A purchase queues a new key for the current period, whose collection it creates if need be. */
  lemma BoughtExactly(cfg: Config, s: State, now: nat, m: Member, ownsKey: bool, validKey: bool, createOk: bool, addOk: bool, p: Period)
    requires now <= U32_MAX && cfg.length > 0 && p * cfg.length <= now < (p + 1) * cfg.length
    ensures var r := AddSpec(cfg, s, now, m, ownsKey, validKey, createOk, addOk);
      && (r.Some? <==> ownsKey && validKey && m !in s.members && (p in s.created || createOk) && addOk)
      && (r.Some? ==>
            var before := if p in s.created && p in s.service then s.service[p] else Collection([], []);
            r.value == s.(members := s.members + {m}, created := s.created + {p},
                          service := s.service[p := Collection(before.queue + [m], before.rings)]))
  {
    PeriodOfTime(cfg, now, p);
    if p in s.created {
      assert s.created + {p} == s.created;
    }
  }

  // ---------------------------------------------------------------------------------------------
  // Cleaning up
  // ---------------------------------------------------------------------------------------------

  ghost predicate HasMembers(s: State, p: Period, i: nat) {
    p in s.service && i < |s.service[p].rings| && s.service[p].rings[i] != []
  }

  ghost function Cursor(s: State, p: Period): nat {
    if p in s.nextRing then s.nextRing[p] else 0
  }

  /** A ring is cleaned only after its period has closed, in order; its keys may be bought again. */
  lemma CleanedExactly(cfg: Config, s: State, now: nat, p: Period, i: nat)
    requires OnClock(now, p)
    ensures var r := CleanRingSpec(cfg, s, now, p, i);
      && (r.Some? <==> p in s.created && i == Cursor(s, p) && HasMembers(s, p, i) && now >= Closing(cfg, p))
      && (r.Some? ==>
            && r.value == s.(members := r.value.members, nextRing := s.nextRing[p := i + 1])
            && forall m :: m in r.value.members <==> m in s.members && m !in s.service[p].rings[i])
  {
    ExpiryOnClock(cfg, now, p);
  }

  /** A period is deleted only after it has closed and every populated ring was cleaned; its records wait for dusting. */
  lemma DeletedExactly(cfg: Config, s: State, now: nat, p: Period, deleteOk: bool)
    requires OnClock(now, p)
    ensures var r := DeleteSpec(cfg, s, now, p, deleteOk);
      && (r.Some? <==> p in s.created && deleteOk && !HasMembers(s, p, Cursor(s, p)) && now >= Closing(cfg, p))
      && (r.Some? ==>
            && r.value == s.(created := s.created - {p}, nextRing := s.nextRing - {p}, service := s.service - {p}, dusting := r.value.dusting)
            && forall q :: q in r.value.dusting <==> q in s.dusting || (q == p && exists t :: t in s.consumed && t.period == p))
  {
    ExpiryOnClock(cfg, now, p);
  }

  /** A dust batch takes records of the earliest deleted period, up to the limit, and forgets the period with its last one. */
  lemma DustedExactly(s: State, batch: set<Token>, p: Period)
    requires p in s.dusting && forall q :: q in s.dusting ==> p <= q
    ensures var r := CleanDustSpec(s, batch);
      var records := set t | t in s.consumed && t.period == p;
      && (r.Some? <==> batch <= records && |batch| == Min(1000, |records|))
      && (r.Some? ==> r.value == s.(consumed := s.consumed - batch, dusting := if records == batch then s.dusting - {p} else s.dusting))
  {
    LeastIs(s, p);
    assert ConsumedOf(s, p) == set t | t in s.consumed && t.period == p;
  }

  lemma LeastIs(s: State, p: Period)
    requires p in s.dusting && forall q :: q in s.dusting ==> p <= q
    ensures s.dusting != {} && Ordered.Least(s.dusting) == p
  {
  }
}
