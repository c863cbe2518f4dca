/** Free movement over whole runs: every split or transfer is paid for by an earlier recycling. */
module CoinageMoves {
  import opened Prelude
  import opened Powers
  import opened Denomination
  import opened SplitValidation
  import opened CoinLedger
  import opened Coinage
  import opened CoinageBalance
  import opened CoinageUnload
  import opened CoinageRuns
  import opened CoinageSafety
  import opened CoinageLimits
  import R = Recyclers

  /** Minimum coins a call may bring back into circulation: those of the aliases it unloads into coins. */
  function UnitsUnloaded(cfg: Config, call: Call): nat {
    match call
    case UnloadIntoCoin(input, _) => |input.aliases| * Units(cfg.denom, input.value)
    case UnloadIntoCoins(input, _, _) => |input.aliases| * Units(cfg.denom, input.value)
    case _ => 0
  }

  /** The transaction is accepted and its call dispatches. */
  predicate Succeeds(cfg: Config, s: State, step: Step)
    requires Amount(cfg.denom, cfg.denom.minExp) > 0
  {
    && Accepted(cfg, s, step)
    && var origin := Validate(cfg, step.env, s, step.ext, step.call).value;
       Dispatch(cfg, step.env, Prepare(s, origin), step.call, origin).Some?
  }

  /** What a step brings back; nothing when it is refused or its dispatch fails. */
  function Recycled(cfg: Config, s: State, step: Step): nat
    requires Amount(cfg.denom, cfg.denom.minExp) > 0
  {
    if Succeeds(cfg, s, step) then UnitsUnloaded(cfg, step.call) else 0
  }

  predicate FreeMoveAccepted(cfg: Config, s: State, step: Step) {
    FreeMove(step) && Accepted(cfg, s, step)
  }

  // ---------------------------------------------------------------------------------------------
  // Steps that move nothing
  // ---------------------------------------------------------------------------------------------

  lemma RemovalCostsMoves(cfg: Config, coins: Coins, who: Account)
    requires CoinsOk(cfg, coins) && who in coins
    ensures Moves(cfg, coins - {who}) <= Moves(cfg, coins)
  {
    TallyRemove(MovesOf(cfg), coins, who);
    ProductNonNegative(cfg.maxAge - coins[who].age, Units(cfg.denom, coins[who].value));
  }

  lemma RejectedKeepsCoins(cfg: Config, s: State, step: Step)
    requires Amount(cfg.denom, cfg.denom.minExp) > 0 && !Accepted(cfg, s, step)
    ensures Next(cfg, s, step).coins == s.coins
  {
  }

  /** A coin used for anything but a movement is consumed, or restored when the use fails. */
  lemma CoinUseTakesCoin(cfg: Config, s: State, step: Step)
    requires Amount(cfg.denom, cfg.denom.minExp) > 0 && Accepted(cfg, s, step) && step.ext.AsCoin? && !FreeMove(step)
    ensures step.ext.who in s.coins
    ensures Next(cfg, s, step).coins == s.coins || Next(cfg, s, step).coins == s.coins - {step.ext.who}
  {
    var who := step.ext.who;
    assert (s.coins - {who})[who := s.coins[who]] == s.coins;
  }

  /** Loads, asset unloads and maintenance leave the coins alone. */
  lemma PlainCallKeepsCoins(cfg: Config, env: Env, s: State, call: Call, origin: Origin)
    requires Amount(cfg.denom, cfg.denom.minExp) > 0 && !origin.CoinOrigin? && !call.UnloadIntoCoin? && !call.UnloadIntoCoins?
    requires Dispatch(cfg, env, s, call, origin).Some?
    ensures Dispatch(cfg, env, s, call, origin).value.coins == s.coins
  {
    match (call, origin) {
      case (LoadUnpaid(items), InfallibleUnpaid(_)) => LoadUnpaidCoins(cfg, env, s, items);
      case (UnloadSigned(inputs, proofs, _), Signed(_)) => ProcessInputsCoins(cfg, s, inputs, proofs);
      case _ =>
    }
  }

  lemma PlainStepKeepsCoins(cfg: Config, s: State, step: Step)
    requires Amount(cfg.denom, cfg.denom.minExp) > 0 && Accepted(cfg, s, step) && !step.ext.AsCoin?
    requires !step.call.UnloadIntoCoin? && !step.call.UnloadIntoCoins?
    ensures Next(cfg, s, step).coins == s.coins
  {
    var origin := Validate(cfg, step.env, s, step.ext, step.call).value;
    var p := Prepare(s, origin);
    assert p.coins == s.coins;
    if Dispatch(cfg, step.env, p, step.call, origin).Some? {
      PlainCallKeepsCoins(cfg, step.env, p, step.call, origin);
    }
  }

  // ---------------------------------------------------------------------------------------------
  // Steps that mint
  // ---------------------------------------------------------------------------------------------

  lemma UnitsConsolidate(d: Denom, v: int, k: nat)
    requires v >= d.minExp
    ensures Units(d, v + k) == Pow2(k) * Units(d, v)
  {
    Pow2Add(k, v - d.minExp);
  }

  lemma IntoCoinMoves(cfg: Config, s: State, input: Input, proofs: seq<R.Proof>, fee: FeeMode, to: Account)
    requires ConfigOk(cfg) && RecyclersOk(cfg, s.rec) && to !in s.coins && DispatchIntoCoin(cfg, s, input, proofs, fee, to).Some?
    ensures Moves(cfg, DispatchIntoCoin(cfg, s, input, proofs, fee, to).value.coins)
         == Moves(cfg, s.coins) + cfg.maxAge * (|input.aliases| * Units(cfg.denom, input.value))
  {
    var k := TrailingZeros(|input.aliases|);
    PowerOfTwoValue(|input.aliases|);
    UnitsConsolidate(cfg.denom, input.value, k);
    TallyInsert(MovesOf(cfg), s.coins, to, Coin(input.value + k, 0));
  }

  /** The outputs of a coin unload hold no more units than its aliases. */
  lemma ExpectedWithinInput(cfg: Config, v: int, count: nat, maxFee: nat)
    requires ConfigOk(cfg) && Amount(cfg.denom, cfg.denom.minExp) > 0 && v in cfg.price
    requires ExpectedUnits(cfg.denom, v, count, maxFee).Ok?
    ensures ExpectedUnits(cfg.denom, v, count, maxFee).value <= count * Units(cfg.denom, v)
  {
    PriceIsUnits(cfg, v);
    DivRebuild(maxFee, Amount(cfg.denom, cfg.denom.minExp));
  }

  lemma MoreMoves(units: nat, total: nat, age: nat)
    requires units <= total && age >= 1
    ensures units * (age - 1) <= age * total
  {
    assert units * (age - 1) <= units * age;
    assert units * age <= total * age;
  }

  lemma IntoCoinsMoves(cfg: Config, env: Env, s: State, input: Input, proofs: seq<R.Proof>, fee: FeeMode, into: seq<Group>, maxFee: nat)
    requires ConfigOk(cfg) && Amount(cfg.denom, cfg.denom.minExp) > 0 && input.value in cfg.price
    requires DispatchIntoCoins(cfg, env, s, input, proofs, fee, into, maxFee).Some?
    ensures Moves(cfg, DispatchIntoCoins(cfg, env, s, input, proofs, fee, into, maxFee).value.coins)
         <= Moves(cfg, s.coins) + cfg.maxAge * (|input.aliases| * Units(cfg.denom, input.value))
  {
    var units := ExpectedUnits(cfg.denom, input.value, |input.aliases|, maxFee).value;
    IntoCoinsMints(cfg, env, s, input, proofs, fee, into, maxFee);
    ExpectedWithinInput(cfg, input.value, |input.aliases|, maxFee);
    SplitMoves(cfg, s.coins, Coin(0, 0), into, units);
    MoreMoves(units, |input.aliases| * Units(cfg.denom, input.value), cfg.maxAge);
  }

  lemma IntoCoinsMints(cfg: Config, env: Env, s: State, input: Input, proofs: seq<R.Proof>, fee: FeeMode, into: seq<Group>, maxFee: nat)
    requires Amount(cfg.denom, cfg.denom.minExp) > 0 && DispatchIntoCoins(cfg, env, s, input, proofs, fee, into, maxFee).Some?
    ensures ExpectedUnits(cfg.denom, input.value, |input.aliases|, maxFee).Ok?
    ensures ValidSplit(cfg.denom, cfg.maxSplit, s.coins.Keys, ExpectedUnits(cfg.denom, input.value, |input.aliases|, maxFee).value, into)
    ensures DispatchIntoCoins(cfg, env, s, input, proofs, fee, into, maxFee).value.coins == Mint(s.coins, Outputs(into), 1)
  {
  }

  lemma MintStepMoves(cfg: Config, s: State, step: Step)
    requires ConfigOk(cfg) && Inv(cfg, s) && Amount(cfg.denom, cfg.denom.minExp) > 0
    requires Accepted(cfg, s, step) && !step.ext.AsCoin? && (step.call.UnloadIntoCoin? || step.call.UnloadIntoCoins?)
    ensures Moves(cfg, Next(cfg, s, step).coins) <= Moves(cfg, s.coins) + cfg.maxAge * Recycled(cfg, s, step)
  {
    var origin := Validate(cfg, step.env, s, step.ext, step.call).value;
    MintPrepared(cfg, s, step, origin);
    MintOutcome(cfg, s, step, origin);
    ProductNonNegative(cfg.maxAge, Recycled(cfg, s, step));
    if Dispatch(cfg, step.env, Prepare(s, origin), step.call, origin).Some? {
      MintMoves(cfg, step.env, Prepare(s, origin), step.call, origin);
    }
  }

  /** The coins after a minting call: those of its dispatch, or the old ones. */
  lemma MintOutcome(cfg: Config, s: State, step: Step, origin: Origin)
    requires Amount(cfg.denom, cfg.denom.minExp) > 0 && Accepted(cfg, s, step) && !origin.CoinOrigin?
    requires Validate(cfg, step.env, s, step.ext, step.call) == Some(origin) && Prepare(s, origin).coins == s.coins
    ensures Next(cfg, s, step).coins
         == match Dispatch(cfg, step.env, Prepare(s, origin), step.call, origin)
            case Some(t) => t.coins
            case None => s.coins
  {
  }

  lemma MintMoves(cfg: Config, env: Env, p: State, call: Call, origin: Origin)
    requires ConfigOk(cfg) && Amount(cfg.denom, cfg.denom.minExp) > 0 && origin.UnloadToken? && RecyclersOk(cfg, p.rec)
    requires (call.UnloadIntoCoin? && call.to !in p.coins) || call.UnloadIntoCoins?
    requires call.input.value in cfg.price && Dispatch(cfg, env, p, call, origin).Some?
    ensures Moves(cfg, Dispatch(cfg, env, p, call, origin).value.coins)
         <= Moves(cfg, p.coins) + cfg.maxAge * UnitsUnloaded(cfg, call)
  {
    match call {
      case UnloadIntoCoin(input, to) => IntoCoinMoves(cfg, p, input, origin.proofs, origin.fee, to);
      case UnloadIntoCoins(input, into, maxFee) => IntoCoinsMoves(cfg, env, p, input, origin.proofs, origin.fee, into, maxFee);
    }
  }

  /** What the checks establish about a minting call before it is dispatched. */
  lemma MintPrepared(cfg: Config, s: State, step: Step, origin: Origin)
    requires Inv(cfg, s) && Accepted(cfg, s, step) && Validate(cfg, step.env, s, step.ext, step.call) == Some(origin)
    requires Amount(cfg.denom, cfg.denom.minExp) > 0
    requires !step.ext.AsCoin? && (step.call.UnloadIntoCoin? || step.call.UnloadIntoCoins?)
    ensures Prepare(s, origin).coins == s.coins && !origin.CoinOrigin?
    ensures Dispatch(cfg, step.env, Prepare(s, origin), step.call, origin).Some? ==> origin.UnloadToken?
    ensures origin.UnloadToken? ==>
      && RecyclersOk(cfg, Prepare(s, origin).rec) && step.call.input.value in cfg.price
      && (step.call.UnloadIntoCoin? ==> step.call.to !in s.coins)
  {
    if origin.UnloadToken? {
      UnloadChecked(cfg, s, step, origin);
      UnloadValueKnown(cfg, step.env, s, step.call, origin.fee);
      if origin.fee.FromOutput? {
        Premark(cfg, s, origin.fee.value, origin.fee.index, step.ext.revision, origin.proofs);
      }
    }
  }

  /** What the validation of an unload says of its origin. */
  lemma UnloadChecked(cfg: Config, s: State, step: Step, origin: Origin)
    requires Accepted(cfg, s, step) && Validate(cfg, step.env, s, step.ext, step.call) == Some(origin) && origin.UnloadToken?
    ensures UnloadCallOk(cfg, step.env, s, step.call, origin.fee)
    ensures origin.fee.FromOutput? ==>
      step.ext.AsUnloadFromOutput? && FeeProofOk(cfg, s, origin.fee.value, origin.fee.index, step.ext.revision, origin.proofs)
  {
  }

  // ---------------------------------------------------------------------------------------------
  // Runs
  // ---------------------------------------------------------------------------------------------

  /** One step against the movements left: a free movement uses at least one, only recycling adds any. */
  lemma StepMoves(cfg: Config, s: State, step: Step)
    requires ConfigOk(cfg) && Inv(cfg, s) && Amount(cfg.denom, cfg.denom.minExp) > 0
    ensures StepPaid(cfg, s, step, Next(cfg, s, step))
  {
    ProductNonNegative(cfg.maxAge, Recycled(cfg, s, step));
    if !Accepted(cfg, s, step) {
      RejectedKeepsCoins(cfg, s, step);
    } else if FreeMove(step) {
      FreeMoveCosts(cfg, s, step);
    } else if step.ext.AsCoin? {
      CoinUseTakesCoin(cfg, s, step);
      RemovalCostsMoves(cfg, s.coins, step.ext.who);
    } else if step.call.UnloadIntoCoin? || step.call.UnloadIntoCoins? {
      MintStepMoves(cfg, s, step);
    } else {
      PlainStepKeepsCoins(cfg, s, step);
    }
  }

  /** Splits and transfers of a run that are accepted. */
  function FreeMoves(cfg: Config, s: State, steps: seq<Step>): nat
    requires Amount(cfg.denom, cfg.denom.minExp) > 0
    decreases |steps|
  {
    if steps == [] then 0
    else (if FreeMoveAccepted(cfg, s, steps[0]) then 1 else 0) + FreeMoves(cfg, Next(cfg, s, steps[0]), steps[1..])
  }

  /** Units the run unloads into coins: those of the unloads that succeed. */
  function RecycledUnits(cfg: Config, s: State, steps: seq<Step>): nat
    requires Amount(cfg.denom, cfg.denom.minExp) > 0
    decreases |steps|
  {
    if steps == [] then 0
    else Recycled(cfg, s, steps[0]) + RecycledUnits(cfg, Next(cfg, s, steps[0]), steps[1..])
  }

  /** The movements those units bring: the maximum age for each. */
  function Earned(cfg: Config, s: State, steps: seq<Step>): nat
    requires Amount(cfg.denom, cfg.denom.minExp) > 0
    decreases |steps|
  {
    if steps == [] then 0 else StepEarned(cfg, s, steps[0]) + Earned(cfg, Next(cfg, s, steps[0]), steps[1..])
  }

  function StepEarned(cfg: Config, s: State, step: Step): nat
    requires Amount(cfg.denom, cfg.denom.minExp) > 0
  {
    ProductNonNegative(cfg.maxAge, Recycled(cfg, s, step));
    cfg.maxAge * Recycled(cfg, s, step)
  }

  lemma {:induction false} EarnedByUnits(cfg: Config, s: State, steps: seq<Step>)
    requires Amount(cfg.denom, cfg.denom.minExp) > 0
    ensures Earned(cfg, s, steps) == cfg.maxAge * RecycledUnits(cfg, s, steps)
    decreases |steps|
  {
    if steps != [] {
      var t := Next(cfg, s, steps[0]);
      EarnedByUnits(cfg, t, steps[1..]);
      EarnedUnfold(cfg, s, steps, t);
      ScaledSum(cfg.maxAge, StepEarned(cfg, s, steps[0]), Recycled(cfg, s, steps[0]),
                Earned(cfg, t, steps[1..]), RecycledUnits(cfg, t, steps[1..]), Earned(cfg, s, steps), RecycledUnits(cfg, s, steps));
    }
  }

  lemma EarnedUnfold(cfg: Config, s: State, steps: seq<Step>, t: State)
    requires Amount(cfg.denom, cfg.denom.minExp) > 0 && steps != [] && t == Next(cfg, s, steps[0])
    ensures Earned(cfg, s, steps) == StepEarned(cfg, s, steps[0]) + Earned(cfg, t, steps[1..])
    ensures RecycledUnits(cfg, s, steps) == Recycled(cfg, s, steps[0]) + RecycledUnits(cfg, t, steps[1..])
  {
  }

  /** Numbers only: a multiple of one step and of the rest is the multiple of their sum. */
  lemma ScaledSum(age: nat, x: nat, a: nat, y: nat, b: nat, sum: nat, units: nat)
    requires x == age * a && y == age * b && sum == x + y && units == a + b
    ensures sum == age * units
  {
  }

  /** The account of one step, of a run: movements made and left, against those left before and those earned. */
  ghost predicate StepPaid(cfg: Config, s: State, step: Step, t: State)
    requires Amount(cfg.denom, cfg.denom.minExp) > 0
  {
    Moves(cfg, t.coins) + (if FreeMoveAccepted(cfg, s, step) then 1 else 0) <= Moves(cfg, s.coins) + StepEarned(cfg, s, step)
  }

  ghost predicate RunPaid(cfg: Config, s: State, steps: seq<Step>)
    requires Amount(cfg.denom, cfg.denom.minExp) > 0
  {
    FreeMoves(cfg, s, steps) + Moves(cfg, Run(cfg, s, steps).coins) <= Moves(cfg, s.coins) + Earned(cfg, s, steps)
  }

  lemma StepIntoRun(cfg: Config, s: State, steps: seq<Step>, t: State)
    requires Amount(cfg.denom, cfg.denom.minExp) > 0 && steps != [] && t == Next(cfg, s, steps[0])
    requires StepPaid(cfg, s, steps[0], t) && RunPaid(cfg, t, steps[1..])
    ensures RunPaid(cfg, s, steps)
  {
  }

  lemma {:induction false} RunIsPaid(cfg: Config, s: State, steps: seq<Step>)
    requires ConfigOk(cfg) && Inv(cfg, s) && Amount(cfg.denom, cfg.denom.minExp) > 0
    ensures RunPaid(cfg, s, steps)
    decreases |steps|
  {
    if steps != [] {
      NextKeeps(cfg, s, steps[0]);
      RunIsPaid(cfg, Next(cfg, s, steps[0]), steps[1..]);
      StepMoves(cfg, s, steps[0]);
      StepIntoRun(cfg, s, steps, Next(cfg, s, steps[0]));
    }
  }

  /**
    Over every run, whatever else happens in it: the free movements made, and those still left, are
    covered by those left at the start and the maximum age for every unit unloaded into coins.
  */
  lemma FreeMovesArePaidFor(cfg: Config, s: State, steps: seq<Step>)
    requires ConfigOk(cfg) && Inv(cfg, s) && Amount(cfg.denom, cfg.denom.minExp) > 0
    ensures FreeMoves(cfg, s, steps) + Moves(cfg, Run(cfg, s, steps).coins)
         <= Moves(cfg, s.coins) + cfg.maxAge * RecycledUnits(cfg, s, steps)
  {
    RunIsPaid(cfg, s, steps);
    EarnedByUnits(cfg, s, steps);
  }

  lemma MovesLeft(cfg: Config, s: State, steps: seq<Step>)
    requires ConfigOk(cfg) && Inv(cfg, s) && Amount(cfg.denom, cfg.denom.minExp) > 0
    ensures Moves(cfg, Run(cfg, s, steps).coins) >= 0
  {
    RunKeeps(cfg, s, steps);
    MovesNonNegative(cfg, Run(cfg, s, steps).coins);
  }

  /** While nothing is recycled into coins, at most as many free movements are accepted as the coins have left. */
  lemma FreeMovesAreBounded(cfg: Config, s: State, steps: seq<Step>)
    requires ConfigOk(cfg) && Inv(cfg, s) && Amount(cfg.denom, cfg.denom.minExp) > 0 && RecycledUnits(cfg, s, steps) == 0
    ensures FreeMoves(cfg, s, steps) <= Moves(cfg, s.coins)
  {
    FreeMovesArePaidFor(cfg, s, steps);
    MovesLeft(cfg, s, steps);
  }
}
