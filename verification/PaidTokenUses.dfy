/**
  What a purchase of a paid unload token is good for: over any run, the uses of one key in one period,
  in whichever ring it ends up, are at most its purchases for that period.
*/
module PaidTokenUses {
  import opened Prelude
  import opened Ordered
  import opened PaidTokens

  /** How often the key sits in the first rings of a period without its token there being consumed. */
  ghost function RingsUnused(consumed: set<Token>, p: Period, rings: seq<seq<Member>>, k: Member): nat
    decreases |rings|
  {
    if rings == [] then 0
    else
      var n := |rings| - 1;
      RingsUnused(consumed, p, rings[..n], k) + RingUnused(consumed, Token(p, n, k), rings[n])
  }

  ghost function RingUnused(consumed: set<Token>, t: Token, ring: seq<Member>): nat {
    if t in consumed then 0 else multiset(ring)[t.of]
  }

  ghost function Unused(consumed: set<Token>, p: Period, c: Collection, k: Member): nat {
    multiset(c.queue)[k] + RingsUnused(consumed, p, c.rings, k)
  }

  /** The uses still open to a key: none once the period has expired. */
  ghost function Usable(cfg: Config, s: State, now: nat, p: Period, k: Member): nat {
    if Expired(cfg, now, p) then 0 else Unused(s.consumed, p, CollectionOf(s, p), k)
  }

  // ---------------------------------------------------------------------------------------------
  // Rings
  // ---------------------------------------------------------------------------------------------

  /** Only the tokens of this period and key matter. */
  lemma {:induction false} SameTokens(c1: set<Token>, c2: set<Token>, p: Period, rings: seq<seq<Member>>, k: Member)
    requires forall i: nat :: Token(p, i, k) in c1 <==> Token(p, i, k) in c2
    ensures RingsUnused(c1, p, rings, k) == RingsUnused(c2, p, rings, k)
    decreases |rings|
  {
    if rings != [] {
      SameTokens(c1, c2, p, rings[..|rings| - 1], k);
    }
  }

  /** A use closes at least one. */
  lemma {:induction false} UseCloses(consumed: set<Token>, p: Period, rings: seq<seq<Member>>, k: Member, i: nat)
    requires i < |rings| && k in rings[i] && Token(p, i, k) !in consumed
    ensures RingsUnused(consumed + {Token(p, i, k)}, p, rings, k) + 1 <= RingsUnused(consumed, p, rings, k)
    decreases |rings|
  {
    var n := |rings| - 1;
    if i == n {
      BeyondRings(consumed, consumed + {Token(p, i, k)}, p, rings[..n], k);
      assert k in multiset(rings[n]);
    } else {
      UseCloses(consumed, p, rings[..n], k, i);
    }
  }

  /** A token of a later ring does not count among the first. */
  lemma {:induction false} BeyondRings(c1: set<Token>, c2: set<Token>, p: Period, rings: seq<seq<Member>>, k: Member)
    requires forall i: nat :: i < |rings| ==> (Token(p, i, k) in c1 <==> Token(p, i, k) in c2)
    ensures RingsUnused(c1, p, rings, k) == RingsUnused(c2, p, rings, k)
    decreases |rings|
  {
    if rings != [] {
      BeyondRings(c1, c2, p, rings[..|rings| - 1], k);
    }
  }

  lemma NewRing(consumed: set<Token>, p: Period, rings: seq<seq<Member>>, x: Member, k: Member)
    ensures RingsUnused(consumed, p, rings + [[x]], k) <= RingsUnused(consumed, p, rings, k) + (if x == k then 1 else 0)
  {
    assert (rings + [[x]])[..|rings|] == rings;
  }

  lemma LastRingGrows(consumed: set<Token>, p: Period, rings: seq<seq<Member>>, x: Member, k: Member)
    requires rings != []
    ensures RingsUnused(consumed, p, rings[|rings| - 1 := rings[|rings| - 1] + [x]], k)
         <= RingsUnused(consumed, p, rings, k) + (if x == k then 1 else 0)
  {
    var n := |rings| - 1;
    assert rings[n := rings[n] + [x]][..n] == rings[..n];
    assert multiset(rings[n] + [x]) == multiset(rings[n]) + multiset{x};
  }

  // ---------------------------------------------------------------------------------------------
  // Steps
  // ---------------------------------------------------------------------------------------------

  /** The key is used for the period, in any ring. */
  predicate UsesKey(cfg: Config, s: State, step: Step, p: Period, k: Member) {
    step.action.Consume? && step.action.period == p && step.action.of == k && Outcome(cfg, s, step).Some?
  }

  /** The key is bought while the period is current. */
  predicate Buys(cfg: Config, s: State, step: Step, p: Period, k: Member) {
    step.action.AddMember? && step.action.member == k && CurrentPeriod(cfg, step.now) == p && Outcome(cfg, s, step).Some?
  }

  ghost predicate StepCovered(cfg: Config, s: State, step: Step, t: State, p: Period, k: Member) {
    (if UsesKey(cfg, s, step, p, k) then 1 else 0) + Usable(cfg, t, step.now, p, k)
    <= Usable(cfg, s, step.now, p, k) + (if Buys(cfg, s, step, p, k) then 1 else 0)
  }

  lemma EnsureCovered(cfg: Config, s: State, now: nat, q: Period, createOk: bool, p: Period, k: Member)
    requires EnsureSpec(s, q, createOk).Some?
    ensures Usable(cfg, EnsureSpec(s, q, createOk).value, now, p, k) <= Usable(cfg, s, now, p, k)
  {
  }

  lemma PushCovered(cfg: Config, s: State, now: nat, q: Period, m: Member, p: Period, k: Member)
    ensures Usable(cfg, Push(s, q, m), now, p, k) <= Usable(cfg, s, now, p, k) + (if p == q && m == k then 1 else 0)
  {
    if p == q {
      var queue := CollectionOf(s, q).queue;
      assert multiset(queue + [m]) == multiset(queue) + multiset{m};
    }
  }

  lemma AddCovered(cfg: Config, s: State, step: Step, p: Period, k: Member)
    requires step.action.AddMember?
    ensures StepCovered(cfg, s, step, Apply(cfg, s, step), p, k)
  {
    var q := CurrentPeriod(cfg, step.now);
    if Outcome(cfg, s, step).Some? {
      var t := EnsureSpec(s, q, step.action.createOk).value;
      EnsureCovered(cfg, s, step.now, q, step.action.createOk, p, k);
      PushCovered(cfg, t, step.now, q, step.action.member, p, k);
    }
  }

  lemma ConsumeCovered(cfg: Config, s: State, step: Step, p: Period, k: Member)
    requires step.action.Consume?
    ensures StepCovered(cfg, s, step, Apply(cfg, s, step), p, k)
  {
    if Outcome(cfg, s, step).Some? {
      var a := step.action;
      if a.period == p && a.of == k {
        UseCloses(s.consumed, p, CollectionOf(s, p).rings, k, a.ring);
      } else {
        SameTokens(s.consumed, s.consumed + {Token(a.period, a.ring, a.of)}, p, CollectionOf(s, p).rings, k);
      }
    }
  }

  lemma OnboardCovered(cfg: Config, s: State, step: Step, p: Period, k: Member)
    requires step.action.Onboard?
    ensures StepCovered(cfg, s, step, Apply(cfg, s, step), p, k)
  {
    if Outcome(cfg, s, step).Some? && step.action.period == p {
      var c := s.service[p];
      assert c.queue == [c.queue[0]] + c.queue[1..];
      if step.action.startNew || c.rings == [] {
        NewRing(s.consumed, p, c.rings, c.queue[0], k);
      } else {
        LastRingGrows(s.consumed, p, c.rings, c.queue[0], k);
      }
    }
  }

  /** Dust is deleted of expired periods only. */
  lemma DustCovered(cfg: Config, s: State, since: nat, step: Step, p: Period, k: Member)
    requires step.action.CleanDust? && DustExpired(cfg, s, since) && since <= step.now <= U32_MAX
    ensures StepCovered(cfg, s, step, Apply(cfg, s, step), p, k)
  {
    if Outcome(cfg, s, step).Some? {
      var q, t := Least(s.dusting), Apply(cfg, s, step);
      if p == q {
        ExpiredStays(cfg, since, step.now, p);
      } else {
        SameTokens(s.consumed, t.consumed, p, CollectionOf(s, p).rings, k);
      }
    }
  }

  lemma RemovalCovered(cfg: Config, s: State, step: Step, p: Period, k: Member)
    requires step.action.EnsureCurrent? || step.action.CleanRing? || step.action.DeleteCollection?
    ensures StepCovered(cfg, s, step, Apply(cfg, s, step), p, k)
  {
  }

  lemma EveryStepCovered(cfg: Config, s: State, since: nat, step: Step, p: Period, k: Member)
    requires DustExpired(cfg, s, since) && since <= step.now <= U32_MAX
    ensures StepCovered(cfg, s, step, Apply(cfg, s, step), p, k)
  {
    match step.action {
      case AddMember(_, _, _, _, _) => AddCovered(cfg, s, step, p, k);
      case Consume(_, _, _, _, _) => ConsumeCovered(cfg, s, step, p, k);
      case Onboard(_, _) => OnboardCovered(cfg, s, step, p, k);
      case CleanDust(_) => DustCovered(cfg, s, since, step, p, k);
      case _ => RemovalCovered(cfg, s, step, p, k);
    }
  }

  // ---------------------------------------------------------------------------------------------
  // Runs
  // ---------------------------------------------------------------------------------------------

  function KeyUses(cfg: Config, s: State, steps: seq<Step>, p: Period, k: Member): nat
    decreases |steps|
  {
    if steps == [] then 0
    else (if UsesKey(cfg, s, steps[0], p, k) then 1 else 0) + KeyUses(cfg, Apply(cfg, s, steps[0]), steps[1..], p, k)
  }

  function Purchases(cfg: Config, s: State, steps: seq<Step>, p: Period, k: Member): nat
    decreases |steps|
  {
    if steps == [] then 0
    else (if Buys(cfg, s, steps[0], p, k) then 1 else 0) + Purchases(cfg, Apply(cfg, s, steps[0]), steps[1..], p, k)
  }

  /** Time closes uses and opens none. */
  lemma UsableLater(cfg: Config, s: State, since: nat, now: nat, p: Period, k: Member)
    requires since <= now <= U32_MAX
    ensures Usable(cfg, s, now, p, k) <= Usable(cfg, s, since, p, k)
  {
    if Expired(cfg, since, p) {
      ExpiredStays(cfg, since, now, p);
    }
  }

  lemma {:induction false} UsesCovered(cfg: Config, s: State, since: nat, steps: seq<Step>, p: Period, k: Member)
    requires DustExpired(cfg, s, since) && Chronological(steps, since)
    ensures KeyUses(cfg, s, steps, p, k) <= Usable(cfg, s, since, p, k) + Purchases(cfg, s, steps, p, k)
    decreases |steps|
  {
    if steps != [] {
      var t := Apply(cfg, s, steps[0]);
      UsableLater(cfg, s, since, steps[0].now, p, k);
      EveryStepCovered(cfg, s, since, steps[0], p, k);
      StepKeepsDustExpired(cfg, s, since, steps[0]);
      UsesCovered(cfg, t, steps[0].now, steps[1..], p, k);
    }
  }

  /** From genesis, a key is used for a period at most as often as it was bought for it, whichever rings it joined. */
  lemma UsedAtMostBought(cfg: Config, since: nat, steps: seq<Step>, p: Period, k: Member)
    requires Chronological(steps, since)
    ensures KeyUses(cfg, Genesis(), steps, p, k) <= Purchases(cfg, Genesis(), steps, p, k)
  {
    UsesCovered(cfg, Genesis(), since, steps, p, k);
  }
}
