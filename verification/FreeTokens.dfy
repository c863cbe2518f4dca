/**
  Free unload tokens (`pallets/coinage/src/lib.rs`, `pallets/coinage/src/extension.rs`): the periods
  in which a token is accepted, and when its consumed record may be forgotten.
*/
module FreeTokens {
  import opened Prelude
  import opened Powers

  type Period = nat
  type Alias = nat

  /** `FREE_UNLOAD_TOKEN_GRACE_WINDOW`: one hour. */
  const GRACE: nat := 3600
  const CLEAN_LIMIT: nat := 10_000

  /** `checked_div(..).unwrap_or(0)`. */
  function PeriodAt(seconds: nat, length: nat): Period {
    if length == 0 then 0 else seconds / length
  }

  /** `current_free_unload_token_periods`: the period an hour ago and the one now. */
  function CurrentPeriods(now: nat, length: nat): (Period, Period) {
    (PeriodAt(SatSub(AsU32(now), GRACE), length), PeriodAt(AsU32(now), length))
  }

  predicate Accepts(now: nat, length: nat, p: Period) {
    p == CurrentPeriods(now, length).0 || p == CurrentPeriods(now, length).1
  }

  /** The age check of `clean_consumed_free_token`: both current periods lie after `p`. */
  predicate Cleanable(now: nat, length: nat, p: Period) {
    p < CurrentPeriods(now, length).0 && p < CurrentPeriods(now, length).1
  }

  // ---------------------------------------------------------------------------------------------
  // The window
  // ---------------------------------------------------------------------------------------------

  /** Period `p` lasts until an hour after its end. */
  function Closes(length: nat, p: Period): nat {
    (p + 1) * length + GRACE
  }

  predicate InWindow(now: nat, length: nat, p: Period) {
    p * length <= now < Closes(length, p)
  }

  lemma QuotientBounds(n: nat, d: nat, q: nat)
    requires d > 0
    ensures n / d == q <==> q * d <= n < (q + 1) * d
    ensures q < n / d <==> (q + 1) * d <= n
  {
    DivRebuild(n, d);
    var p, r := n / d, n % d;
    assert n == p * d + r && r < d;
    assert (q + 1) * d == q * d + d;
    if q * d <= n < (q + 1) * d {
      DivModUnique(n, d, q, n - q * d);
    }
    if q < p {
      MulGap(q, p, d);
    } else if p < q {
      MulGap(p, q, d);
    }
  }

  lemma Seconds(now: nat)
    requires now <= U32_MAX
    ensures AsU32(now) == now
  {
  }

  /** Whatever is accepted is still open, for every period length. */
  lemma AcceptedIsOpen(now: nat, length: nat, p: Period)
    requires now <= U32_MAX && length > 0 && Accepts(now, length, p)
    ensures now < Closes(length, p)
  {
    Seconds(now);
    QuotientBounds(now, length, p);
    QuotientBounds(SatSub(now, GRACE), length, p);
  }

  /** Records are cleanable exactly once the window has closed, for every period length. */
  lemma CleanableIffClosed(now: nat, length: nat, p: Period)
    requires now <= U32_MAX && length > 0
    ensures Cleanable(now, length, p) <==> now >= Closes(length, p)
  {
    Seconds(now);
    QuotientBounds(SatSub(now, GRACE), length, p);
    QuotientBounds(now, length, p);
    assert (p + 1) * length > 0;
  }

  lemma WindowExact(now: nat, length: nat, p: Period)
    requires now <= U32_MAX && length >= GRACE
    ensures Accepts(now, length, p) <==> InWindow(now, length, p)
  {
    Seconds(now);
    QuotientBounds(now, length, p);
    QuotientBounds(SatSub(now, GRACE), length, p);
    assert (p + 1) * length == p * length + length;
    if p > 0 {
      assert p * length >= length;
    }
  }

  /** With a shorter period the second period boundary falls inside the hour and period 1 is skipped. */
  lemma ShortPeriodSkips(length: nat)
    requires 0 < length < GRACE
    ensures InWindow(2 * length, length, 1) && !Accepts(2 * length, length, 1)
  {
    Seconds(2 * length);
    QuotientBounds(2 * length, length, 2);
    QuotientBounds(SatSub(2 * length, GRACE), length, 0);
  }

  ghost predicate WindowHolds(length: nat) {
    forall now: nat, p: Period :: now <= U32_MAX ==> (Accepts(now, length, p) <==> InWindow(now, length, p))
  }

  /** The documented window is the accepted one exactly when a period lasts at least the grace hour. */
  lemma WindowIffLongPeriods(length: nat)
    requires length > 0
    ensures WindowHolds(length) <==> length >= GRACE
  {
    if length >= GRACE {
      forall now: nat, p: Period | now <= U32_MAX
        ensures Accepts(now, length, p) <==> InWindow(now, length, p)
      {
        WindowExact(now, length, p);
      }
    } else {
      ShortPeriodSkips(length);
    }
  }

  // ---------------------------------------------------------------------------------------------
  // Runs
  // ---------------------------------------------------------------------------------------------

  /** `ConsumedFreeUnloadTokens`. */
  type Consumed = set<(Period, Alias)>

  /** `genuine`: the personhood proof verifies and yields the alias of context `(period, counter)`. */
  datatype Action =
    | Use(period: Period, counter: nat, limit: nat, alias: Alias, genuine: bool)
    | Clean(period: Period, removed: set<(Period, Alias)>)

  datatype Step = Step(now: nat, action: Action)

  predicate Accepted(length: nat, s: Consumed, step: Step) {
    step.action.Use?
    && Accepts(step.now, length, step.action.period)
    && step.action.counter < step.action.limit
    && step.action.genuine
    && (step.action.period, step.action.alias) !in s
  }

  /** The time lies in the period, or did an hour earlier. */
  ghost predicate NowOrAnHourAgo(now: nat, length: nat, p: Period) {
    || p * length <= now < (p + 1) * length
    || p * length <= Max(0, now - 3600) < (p + 1) * length
  }

  /** For every period length: what is accepted, and that it is spent. */
  lemma AcceptedExactly(length: nat, s: Consumed, now: nat, p: Period, counter: nat, limit: nat, a: Alias, genuine: bool)
    requires now <= U32_MAX && length > 0
    ensures var step := Step(now, Use(p, counter, limit, a, genuine));
      && (Accepted(length, s, step) <==> genuine && counter < limit && (p, a) !in s && NowOrAnHourAgo(now, length, p))
      && Next(length, s, step) == if Accepted(length, s, step) then s + {(p, a)} else s
  {
    Seconds(now);
    QuotientBounds(now, length, p);
    QuotientBounds(SatSub(now, GRACE), length, p);
  }

  /** A clean-up takes records of one closed period, as many as the limit allows. */
  lemma CleanedExactly(length: nat, s: Consumed, now: nat, p: Period, removed: set<(Period, Alias)>)
    requires now <= U32_MAX && length > 0
    ensures var step := Step(now, Clean(p, removed));
      var records := set e | e in s && e.0 == p;
      Next(length, s, step)
      == if (p + 1) * length + 3600 <= now && records != {} && removed <= records && |removed| == Min(10_000, |records|)
         then s - removed else s
  {
    CleanableIffClosed(now, length, p);
    assert OfPeriod(s, p) == set e | e in s && e.0 == p;
  }

  function OfPeriod(s: Consumed, p: Period): Consumed {
    set e | e in s && e.0 == p
  }

  /** `clear_prefix` of a period with the batch limit. */
  predicate CleanOk(length: nat, s: Consumed, step: Step) {
    step.action.Clean?
    && Cleanable(step.now, length, step.action.period)
    && OfPeriod(s, step.action.period) != {}
    && step.action.removed <= OfPeriod(s, step.action.period)
    && |step.action.removed| == Min(CLEAN_LIMIT, |OfPeriod(s, step.action.period)|)
  }

  /** The token is spent in `prepare`, whether or not the dispatch then succeeds. */
  function Next(length: nat, s: Consumed, step: Step): Consumed {
    if Accepted(length, s, step) then s + {(step.action.period, step.action.alias)}
    else if CleanOk(length, s, step) then s - step.action.removed
    else s
  }

  /** How often the run accepts one token. */
  function Uses(length: nat, s: Consumed, steps: seq<Step>, p: Period, a: Alias): nat
    decreases |steps|
  {
    if steps == [] then 0
    else (if Accepted(length, s, steps[0]) && steps[0].action.period == p && steps[0].action.alias == a then 1 else 0)
         + Uses(length, Next(length, s, steps[0]), steps[1..], p, a)
  }

  /** Time does not run backwards and fits the 32-bit seconds the code reads. */
  predicate Chronological(steps: seq<Step>, since: nat)
    decreases |steps|
  {
    steps == [] || (since <= steps[0].now <= U32_MAX && Chronological(steps[1..], steps[0].now))
  }

  /** Recorded as consumed, or past the point where it could be used. */
  predicate Barred(length: nat, s: Consumed, now: nat, p: Period, a: Alias) {
    (p, a) in s || (length > 0 && now >= Closes(length, p))
  }

  lemma BarredStays(length: nat, s: Consumed, since: nat, step: Step, p: Period, a: Alias)
    requires Barred(length, s, since, p, a) && since <= step.now <= U32_MAX
    ensures Barred(length, Next(length, s, step), step.now, p, a)
    ensures !(Accepted(length, s, step) && step.action.period == p && step.action.alias == a)
  {
    if length > 0 && step.now >= Closes(length, p) {
      if Accepts(step.now, length, p) {
        AcceptedIsOpen(step.now, length, p);
      }
    } else if CleanOk(length, s, step) && step.action.period == p {
      if length > 0 {
        CleanableIffClosed(step.now, length, p);
      }
    }
  }

  lemma {:induction false} BarredForever(length: nat, s: Consumed, since: nat, steps: seq<Step>, p: Period, a: Alias)
    requires Barred(length, s, since, p, a) && Chronological(steps, since)
    ensures Uses(length, s, steps, p, a) == 0
    decreases |steps|
  {
    if steps != [] {
      BarredStays(length, s, since, steps[0], p, a);
      BarredForever(length, Next(length, s, steps[0]), steps[0].now, steps[1..], p, a);
    }
  }

  /** Over any run, clean-ups included and for every period length, a token is accepted at most once. */
  lemma {:induction false} AcceptedAtMostOnce(length: nat, s: Consumed, since: nat, steps: seq<Step>, p: Period, a: Alias)
    requires Chronological(steps, since)
    ensures Uses(length, s, steps, p, a) <= 1
    decreases |steps|
  {
    if steps != [] {
      var t := Next(length, s, steps[0]);
      if Accepted(length, s, steps[0]) && steps[0].action.period == p && steps[0].action.alias == a {
        BarredForever(length, t, steps[0].now, steps[1..], p, a);
      } else {
        AcceptedAtMostOnce(length, t, steps[0].now, steps[1..], p, a);
      }
    }
  }
}
