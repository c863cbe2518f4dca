/**
  Unload tokens inside transactions: a prepaid unload is included only when its free or paid token is
  accepted, and the token is spent with it. The coinage, free-token and paid-token storages move
  together under one clock.
*/
module CoinageTokens {
  import opened Prelude
  import opened Denomination
  import opened Coinage
  import opened CoinageRuns
  import R = Recyclers
  import FT = FreeTokens
  import PT = PaidTokens
  import PU = PaidTokenUses

  datatype Rules = Rules(paid: PT.Config, length: nat)

  datatype World = World(coins: State, paid: PT.State, free: FT.Consumed)

  /** The token a prepaid unload shows. */
  datatype Use =
    | PaidUse(period: nat, ring: nat, revisionOk: bool, genuine: bool, of: nat)
    | FreeUse(period: nat, counter: nat, limit: nat, alias: FT.Alias, genuine: bool)

  datatype Event =
    | Prepaid(env: Env, proofs: seq<R.Proof>, call: Call, use: Use)
    | Plain(step: Step)
    | PaidService(action: PT.Action)
    | FreeCleanUp(period: nat, removed: set<(FT.Period, FT.Alias)>)

  function PaidStep(w: World, use: Use): PT.Step
    requires use.PaidUse?
  {
    PT.Step(w.coins.now, PT.Consume(use.period, use.ring, use.revisionOk, use.genuine, use.of))
  }

  function FreeStep(w: World, use: Use): FT.Step
    requires use.FreeUse?
  {
    FT.Step(w.coins.now, FT.Use(use.period, use.counter, use.limit, use.alias, use.genuine))
  }

  predicate TokenAccepted(rules: Rules, w: World, use: Use) {
    match use
    case PaidUse(_, _, _, _, _) => PT.Outcome(rules.paid, w.paid, PaidStep(w, use)).Some?
    case FreeUse(_, _, _, _, _) => FT.Accepted(rules.length, w.free, FreeStep(w, use))
  }

  function Extended(rules: Rules, w: World, e: Event): Extension
    requires e.Prepaid?
  {
    AsUnloadToken(e.proofs, TokenAccepted(rules, w, e.use))
  }

  /** The prepaid unload passes validation, its token included. */
  predicate Included(cfg: Config, rules: Rules, w: World, e: Event) {
    e.Prepaid? && Decodes(cfg, e.call) && Validate(cfg, e.env, w.coins, Extended(rules, w, e), e.call).Some?
  }

  /** What the event means to the coinage storage alone. */
  function CoinStep(rules: Rules, w: World, e: Event): Step {
    match e
    case Prepaid(env, _, call, _) => Tx(env, Extended(rules, w, e), call)
    case Plain(step) => if step.Tx? && step.ext.AsUnloadToken? then Tick(0) else step
    case _ => Tick(0)
  }

  /** The step of the paid-token storage, if the event is one. */
  function PaidSteps(cfg: Config, rules: Rules, w: World, e: Event): seq<PT.Step> {
    match e
    case Prepaid(_, _, _, use) => if Included(cfg, rules, w, e) && use.PaidUse? then [PaidStep(w, use)] else []
    case PaidService(action) => if action.Consume? then [] else [PT.Step(w.coins.now, action)]
    case _ => []
  }

  function FreeSteps(cfg: Config, rules: Rules, w: World, e: Event): seq<FT.Step> {
    match e
    case Prepaid(_, _, _, use) => if Included(cfg, rules, w, e) && use.FreeUse? then [FreeStep(w, use)] else []
    case FreeCleanUp(period, removed) => [FT.Step(w.coins.now, FT.Clean(period, removed))]
    case _ => []
  }

  function Move(cfg: Config, rules: Rules, w: World, e: Event): World
    requires Amount(cfg.denom, cfg.denom.minExp) > 0
  {
    var paid, free := PaidSteps(cfg, rules, w, e), FreeSteps(cfg, rules, w, e);
    World(Next(cfg, w.coins, CoinStep(rules, w, e)),
          if paid == [] then w.paid else PT.Apply(rules.paid, w.paid, paid[0]),
          if free == [] then w.free else FT.Next(rules.length, w.free, free[0]))
  }

  function History(cfg: Config, rules: Rules, w: World, events: seq<Event>): World
    requires Amount(cfg.denom, cfg.denom.minExp) > 0
    decreases |events|
  {
    if events == [] then w else History(cfg, rules, Move(cfg, rules, w, events[0]), events[1..])
  }

  function Start(now: nat): World {
    World(Genesis(now), PT.Genesis(), {})
  }

  // ---------------------------------------------------------------------------------------------
  // The coinage storage moves as in a run
  // ---------------------------------------------------------------------------------------------

  function CoinRun(cfg: Config, rules: Rules, w: World, events: seq<Event>): seq<Step>
    requires Amount(cfg.denom, cfg.denom.minExp) > 0
    decreases |events|
  {
    if events == [] then [] else [CoinStep(rules, w, events[0])] + CoinRun(cfg, rules, Move(cfg, rules, w, events[0]), events[1..])
  }

  lemma {:induction false} HistoryIsRun(cfg: Config, rules: Rules, w: World, events: seq<Event>)
    requires Amount(cfg.denom, cfg.denom.minExp) > 0
    ensures History(cfg, rules, w, events).coins == Run(cfg, w.coins, CoinRun(cfg, rules, w, events))
    decreases |events|
  {
    if events != [] {
      var t := Move(cfg, rules, w, events[0]);
      HistoryIsRun(cfg, rules, t, events[1..]);
      RunCons(cfg, w.coins, CoinStep(rules, w, events[0]), CoinRun(cfg, rules, t, events[1..]));
    }
  }

  lemma RunCons(cfg: Config, s: State, step: Step, rest: seq<Step>)
    requires Amount(cfg.denom, cfg.denom.minExp) > 0
    ensures Run(cfg, s, [step] + rest) == Run(cfg, Next(cfg, s, step), rest)
  {
    assert ([step] + rest)[1..] == rest;
  }

  /** Whatever tokens are shown, accepted or refused, the pallet stays solvent. */
  lemma HistoryIsSolvent(cfg: Config, rules: Rules, now: nat, events: seq<Event>)
    requires ConfigOk(cfg)
    ensures Amount(cfg.denom, cfg.denom.minExp) > 0
    ensures Solvent(cfg, History(cfg, rules, Start(now), events).coins)
  {
    MinimumPositive(cfg.denom);
    HistoryIsRun(cfg, rules, Start(now), events);
    ReachableIsSolvent(cfg, now, CoinRun(cfg, rules, Start(now), events));
  }

  // ---------------------------------------------------------------------------------------------
  // The clock
  // ---------------------------------------------------------------------------------------------

  lemma {:induction false} LoadUnpaidNow(cfg: Config, env: Env, s: State, items: seq<R.Voucher>)
    requires DispatchLoadUnpaid(cfg, env, s, items).Some?
    ensures DispatchLoadUnpaid(cfg, env, s, items).value.now == s.now
    decreases |items|
  {
    if items != [] {
      LoadUnpaidNow(cfg, env, s, items[..|items| - 1]);
    }
  }

  lemma {:induction false} ProcessInputsNow(cfg: Config, s: State, inputs: seq<Input>, proofs: seq<R.Proof>)
    requires ProcessInputs(cfg, s, inputs, proofs).Some?
    ensures ProcessInputs(cfg, s, inputs, proofs).value.now == s.now
    decreases |inputs|
  {
    if inputs != [] {
      var n := |inputs| - 1;
      ProcessInputsNow(cfg, s, inputs[..n], proofs[..|proofs| - |inputs[n].aliases|]);
    }
  }

  lemma TokenDispatchNow(cfg: Config, env: Env, s: State, call: Call, origin: Origin)
    requires Amount(cfg.denom, cfg.denom.minExp) > 0 && origin.UnloadToken? && Dispatch(cfg, env, s, call, origin).Some?
    ensures Dispatch(cfg, env, s, call, origin).value.now == s.now
  {
  }

  lemma DispatchNow(cfg: Config, env: Env, s: State, call: Call, origin: Origin)
    requires Amount(cfg.denom, cfg.denom.minExp) > 0 && Dispatch(cfg, env, s, call, origin).Some?
    ensures Dispatch(cfg, env, s, call, origin).value.now == s.now
  {
    if origin.UnloadToken? {
      TokenDispatchNow(cfg, env, s, call, origin);
    } else {
      match (call, origin) {
        case (LoadUnpaid(items), InfallibleUnpaid(_)) => LoadUnpaidNow(cfg, env, s, items);
        case (UnloadSigned(inputs, proofs, _), Signed(_)) => ProcessInputsNow(cfg, s, inputs, proofs);
        case _ =>
      }
    }
  }

  /** Only the passing of time moves the clock, and never back. */
  lemma ClockAdvances(cfg: Config, s: State, step: Step)
    requires Amount(cfg.denom, cfg.denom.minExp) > 0
    ensures Next(cfg, s, step).now == s.now + (if step.Tick? then step.seconds else 0)
  {
    if step.Tx? && Decodes(cfg, step.call) && Validate(cfg, step.env, s, step.ext, step.call).Some? {
      var origin := Validate(cfg, step.env, s, step.ext, step.call).value;
      var p := Prepare(s, origin);
      assert p.now == s.now;
      if Dispatch(cfg, step.env, p, step.call, origin).Some? {
        DispatchNow(cfg, step.env, p, step.call, origin);
      }
    }
  }

  lemma {:induction false} HistoryAdvances(cfg: Config, rules: Rules, w: World, events: seq<Event>)
    requires Amount(cfg.denom, cfg.denom.minExp) > 0
    ensures w.coins.now <= History(cfg, rules, w, events).coins.now
    decreases |events|
  {
    if events != [] {
      ClockAdvances(cfg, w.coins, CoinStep(rules, w, events[0]));
      HistoryAdvances(cfg, rules, Move(cfg, rules, w, events[0]), events[1..]);
    }
  }

  // ---------------------------------------------------------------------------------------------
  // Paid tokens
  // ---------------------------------------------------------------------------------------------

  function PaidRun(cfg: Config, rules: Rules, w: World, events: seq<Event>): seq<PT.Step>
    requires Amount(cfg.denom, cfg.denom.minExp) > 0
    decreases |events|
  {
    if events == [] then []
    else PaidSteps(cfg, rules, w, events[0]) + PaidRun(cfg, rules, Move(cfg, rules, w, events[0]), events[1..])
  }

  /** A prepaid unload that is included on a paid token of the key in the period. */
  predicate PaidWith(cfg: Config, rules: Rules, w: World, e: Event, p: nat, k: nat) {
    Included(cfg, rules, w, e) && e.use.PaidUse? && e.use.period == p && e.use.of == k
  }

  predicate Bought(rules: Rules, w: World, e: Event, p: nat, k: nat) {
    e.PaidService? && PU.Buys(rules.paid, w.paid, PT.Step(w.coins.now, e.action), p, k)
  }

  function PaidUnloads(cfg: Config, rules: Rules, w: World, events: seq<Event>, p: nat, k: nat): nat
    requires Amount(cfg.denom, cfg.denom.minExp) > 0
    decreases |events|
  {
    if events == [] then 0
    else (if PaidWith(cfg, rules, w, events[0], p, k) then 1 else 0)
         + PaidUnloads(cfg, rules, Move(cfg, rules, w, events[0]), events[1..], p, k)
  }

  function TokensBought(cfg: Config, rules: Rules, w: World, events: seq<Event>, p: nat, k: nat): nat
    requires Amount(cfg.denom, cfg.denom.minExp) > 0
    decreases |events|
  {
    if events == [] then 0
    else (if Bought(rules, w, events[0], p, k) then 1 else 0)
         + TokensBought(cfg, rules, Move(cfg, rules, w, events[0]), events[1..], p, k)
  }

  /** An included unload has an accepted token. */
  lemma IncludedHasToken(cfg: Config, rules: Rules, w: World, e: Event)
    requires Included(cfg, rules, w, e)
    ensures TokenAccepted(rules, w, e.use)
  {
  }

  lemma PaidEventCounts(cfg: Config, rules: Rules, w: World, e: Event, rest: seq<PT.Step>, p: nat, k: nat)
    requires Amount(cfg.denom, cfg.denom.minExp) > 0
    ensures var t := Move(cfg, rules, w, e);
      var steps := PaidSteps(cfg, rules, w, e) + rest;
      && PU.KeyUses(rules.paid, w.paid, steps, p, k)
         == (if PaidWith(cfg, rules, w, e, p, k) then 1 else 0) + PU.KeyUses(rules.paid, t.paid, rest, p, k)
      && PU.Purchases(rules.paid, w.paid, steps, p, k)
         == (if Bought(rules, w, e, p, k) then 1 else 0) + PU.Purchases(rules.paid, t.paid, rest, p, k)
  {
    var own := PaidSteps(cfg, rules, w, e);
    if Included(cfg, rules, w, e) {
      IncludedHasToken(cfg, rules, w, e);
    }
    if own == [] {
      assert own + rest == rest;
    } else {
      assert (own + rest)[1..] == rest;
    }
  }

  lemma {:induction false} PaidRunCounts(cfg: Config, rules: Rules, w: World, events: seq<Event>, p: nat, k: nat)
    requires Amount(cfg.denom, cfg.denom.minExp) > 0
    ensures PU.KeyUses(rules.paid, w.paid, PaidRun(cfg, rules, w, events), p, k) == PaidUnloads(cfg, rules, w, events, p, k)
    ensures PU.Purchases(rules.paid, w.paid, PaidRun(cfg, rules, w, events), p, k) == TokensBought(cfg, rules, w, events, p, k)
    decreases |events|
  {
    if events != [] {
      var t := Move(cfg, rules, w, events[0]);
      PaidRunCounts(cfg, rules, t, events[1..], p, k);
      PaidEventCounts(cfg, rules, w, events[0], PaidRun(cfg, rules, t, events[1..]), p, k);
    }
  }

  lemma PaidInOrder(since: nat, now: nat, steps: seq<PT.Step>)
    requires since <= now && PT.Chronological(steps, now)
    ensures PT.Chronological(steps, since)
  {
  }

  lemma {:induction false} PaidRunInOrder(cfg: Config, rules: Rules, w: World, events: seq<Event>)
    requires Amount(cfg.denom, cfg.denom.minExp) > 0 && History(cfg, rules, w, events).coins.now <= U32_MAX
    ensures PT.Chronological(PaidRun(cfg, rules, w, events), w.coins.now)
    decreases |events|
  {
    if events != [] {
      var t := Move(cfg, rules, w, events[0]);
      HistoryAdvances(cfg, rules, w, events);
      ClockAdvances(cfg, w.coins, CoinStep(rules, w, events[0]));
      PaidRunInOrder(cfg, rules, t, events[1..]);
      var own, rest := PaidSteps(cfg, rules, w, events[0]), PaidRun(cfg, rules, t, events[1..]);
      PaidInOrder(w.coins.now, t.coins.now, rest);
      if own == [] {
        assert own + rest == rest;
      } else {
        assert (own + rest)[1..] == rest;
      }
    }
  }

  /**
    From the start, over every history whose clock fits 32 bits: the unloads included on paid tokens
    of one key and period are at most the purchases of that key for that period.
  */
  lemma PaidUnloadsAreBought(cfg: Config, rules: Rules, now: nat, events: seq<Event>, p: nat, k: nat)
    requires Amount(cfg.denom, cfg.denom.minExp) > 0 && History(cfg, rules, Start(now), events).coins.now <= U32_MAX
    ensures PaidUnloads(cfg, rules, Start(now), events, p, k) <= TokensBought(cfg, rules, Start(now), events, p, k)
  {
    PaidRunInOrder(cfg, rules, Start(now), events);
    PaidRunCounts(cfg, rules, Start(now), events, p, k);
    PU.UsedAtMostBought(rules.paid, now, PaidRun(cfg, rules, Start(now), events), p, k);
  }

  // ---------------------------------------------------------------------------------------------
  // Free tokens
  // ---------------------------------------------------------------------------------------------

  function FreeRun(cfg: Config, rules: Rules, w: World, events: seq<Event>): seq<FT.Step>
    requires Amount(cfg.denom, cfg.denom.minExp) > 0
    decreases |events|
  {
    if events == [] then []
    else FreeSteps(cfg, rules, w, events[0]) + FreeRun(cfg, rules, Move(cfg, rules, w, events[0]), events[1..])
  }

  /** A prepaid unload that is included on the free token. */
  predicate FreeWith(cfg: Config, rules: Rules, w: World, e: Event, p: nat, a: FT.Alias) {
    Included(cfg, rules, w, e) && e.use.FreeUse? && e.use.period == p && e.use.alias == a
  }

  function FreeUnloads(cfg: Config, rules: Rules, w: World, events: seq<Event>, p: nat, a: FT.Alias): nat
    requires Amount(cfg.denom, cfg.denom.minExp) > 0
    decreases |events|
  {
    if events == [] then 0
    else (if FreeWith(cfg, rules, w, events[0], p, a) then 1 else 0)
         + FreeUnloads(cfg, rules, Move(cfg, rules, w, events[0]), events[1..], p, a)
  }

  lemma FreeEventCounts(cfg: Config, rules: Rules, w: World, e: Event, rest: seq<FT.Step>, p: nat, a: FT.Alias)
    requires Amount(cfg.denom, cfg.denom.minExp) > 0
    ensures FT.Uses(rules.length, w.free, FreeSteps(cfg, rules, w, e) + rest, p, a)
         == (if FreeWith(cfg, rules, w, e, p, a) then 1 else 0) + FT.Uses(rules.length, Move(cfg, rules, w, e).free, rest, p, a)
  {
    var own := FreeSteps(cfg, rules, w, e);
    if Included(cfg, rules, w, e) {
      IncludedHasToken(cfg, rules, w, e);
    }
    if own == [] {
      assert own + rest == rest;
    } else {
      assert (own + rest)[1..] == rest;
    }
  }

  lemma {:induction false} FreeRunCounts(cfg: Config, rules: Rules, w: World, events: seq<Event>, p: nat, a: FT.Alias)
    requires Amount(cfg.denom, cfg.denom.minExp) > 0
    ensures FT.Uses(rules.length, w.free, FreeRun(cfg, rules, w, events), p, a) == FreeUnloads(cfg, rules, w, events, p, a)
    decreases |events|
  {
    if events != [] {
      var t := Move(cfg, rules, w, events[0]);
      FreeRunCounts(cfg, rules, t, events[1..], p, a);
      FreeEventCounts(cfg, rules, w, events[0], FreeRun(cfg, rules, t, events[1..]), p, a);
    }
  }

  lemma FreeInOrder(since: nat, now: nat, steps: seq<FT.Step>)
    requires since <= now && FT.Chronological(steps, now)
    ensures FT.Chronological(steps, since)
  {
  }

  lemma {:induction false} FreeRunInOrder(cfg: Config, rules: Rules, w: World, events: seq<Event>)
    requires Amount(cfg.denom, cfg.denom.minExp) > 0 && History(cfg, rules, w, events).coins.now <= U32_MAX
    ensures FT.Chronological(FreeRun(cfg, rules, w, events), w.coins.now)
    decreases |events|
  {
    if events != [] {
      var t := Move(cfg, rules, w, events[0]);
      HistoryAdvances(cfg, rules, w, events);
      ClockAdvances(cfg, w.coins, CoinStep(rules, w, events[0]));
      FreeRunInOrder(cfg, rules, t, events[1..]);
      var own, rest := FreeSteps(cfg, rules, w, events[0]), FreeRun(cfg, rules, t, events[1..]);
      FreeInOrder(w.coins.now, t.coins.now, rest);
      if own == [] {
        assert own + rest == rest;
      } else {
        assert (own + rest)[1..] == rest;
      }
    }
  }

  /** Over every history whose clock fits 32 bits, at most one unload is included on a free token. */
  lemma FreeUnloadsOnce(cfg: Config, rules: Rules, w: World, events: seq<Event>, p: nat, a: FT.Alias)
    requires Amount(cfg.denom, cfg.denom.minExp) > 0 && History(cfg, rules, w, events).coins.now <= U32_MAX
    ensures FreeUnloads(cfg, rules, w, events, p, a) <= 1
  {
    FreeRunInOrder(cfg, rules, w, events);
    FreeRunCounts(cfg, rules, w, events, p, a);
    FT.AcceptedAtMostOnce(rules.length, w.free, w.coins.now, FreeRun(cfg, rules, w, events), p, a);
  }
}
