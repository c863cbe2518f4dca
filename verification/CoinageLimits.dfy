/** Limits on what a coin can do: exponential back-off after failures, and what a free movement costs. */
module CoinageLimits {
  import opened Prelude
  import opened Powers
  import opened Denomination
  import opened SplitValidation
  import opened CoinLedger
  import opened Coinage
  import opened CoinageBalance
  import opened CoinageRuns
  import R = Recyclers

  // ---------------------------------------------------------------------------------------------
  // Back-off
  // ---------------------------------------------------------------------------------------------

  /** Seconds a coin is locked after its `k`-th failure in a row. */
  ghost function Backoff(base: nat, k: nat): nat
    requires k >= 1
  {
    Min(U64_MAX, Pow2(k - 1) * base)
  }

  /** The saturating computation of `post_dispatch_details`, for every retry count and every base. */
  lemma BackoffIsExponential(base: nat, k: nat)
    requires k >= 1
    ensures SatMul(SatPow2(Min(k - 1, 255)), base, U64_MAX) == Backoff(base, k)
  {
    Pow2Numerals();
    if k - 1 >= 64 {
      Pow2Monotone(64, k - 1);
      if base >= 1 {
        AtLeastOnce(U64_MAX, base);
        AtLeastOnce(Pow2(k - 1), base);
      }
    }
  }

  lemma AtLeastOnce(a: nat, b: nat)
    requires b >= 1
    ensures a * b >= a
  {
    if b > 1 {
      MulGap(1, b, a);
      assert b * a == a * b;
    }
  }

  /** Failures in a row of an account's coin, and when the last one happened. */
  datatype Track = Track(failures: nat, at: nat)

  predicate UsesCoin(cfg: Config, s: State, step: Step, who: Account) {
    && step.Tx? && step.ext == AsCoin(who) && Decodes(cfg, step.call)
    && Validate(cfg, step.env, s, step.ext, step.call).Some?
  }

  predicate UseFails(cfg: Config, s: State, step: Step, who: Account)
    requires Amount(cfg.denom, cfg.denom.minExp) > 0 && UsesCoin(cfg, s, step, who)
  {
    Dispatch(cfg, step.env, s.(coins := s.coins - {who}), step.call, CoinOrigin(who, s.coins[who])).None?
  }

  function Observe(cfg: Config, s: State, step: Step, who: Account, t: Track): Track
    requires Amount(cfg.denom, cfg.denom.minExp) > 0
  {
    if !UsesCoin(cfg, s, step, who) then t
    else if UseFails(cfg, s, step, who) then Track(t.failures + 1, s.now)
    else Track(0, s.now)
  }

  /** The lock is exactly the one the failures in a row call for. */
  ghost predicate LockMatches(cfg: Config, s: State, who: Account, t: Track) {
    if t.failures == 0 then who !in s.locked
    else
      && who in s.locked
      && s.locked[who] == Lock(Min(t.failures - 1, 255), SatAdd(t.at, Backoff(cfg.lockBase, t.failures), U64_MAX))
  }

  lemma {:induction false} LoadUnpaidLocks(cfg: Config, env: Env, s: State, items: seq<R.Voucher>)
    requires DispatchLoadUnpaid(cfg, env, s, items).Some?
    ensures DispatchLoadUnpaid(cfg, env, s, items).value.locked == s.locked
    decreases |items|
  {
    if items != [] {
      LoadUnpaidLocks(cfg, env, s, items[..|items| - 1]);
    }
  }

  lemma {:induction false} ProcessInputsLocks(cfg: Config, s: State, inputs: seq<Input>, proofs: seq<R.Proof>)
    requires ProcessInputs(cfg, s, inputs, proofs).Some?
    ensures ProcessInputs(cfg, s, inputs, proofs).value.locked == s.locked
    decreases |inputs|
  {
    if inputs != [] {
      var n := |inputs| - 1;
      ProcessInputsLocks(cfg, s, inputs[..n], proofs[..|proofs| - |inputs[n].aliases|]);
    }
  }

  lemma DispatchLocks(cfg: Config, env: Env, s: State, call: Call, origin: Origin)
    requires Amount(cfg.denom, cfg.denom.minExp) > 0 && Dispatch(cfg, env, s, call, origin).Some?
    ensures Dispatch(cfg, env, s, call, origin).value.locked == s.locked
  {
    if origin.UnloadToken? {
      TokenDispatchLocks(cfg, env, s, call, origin);
    } else {
      match (call, origin) {
        case (LoadUnpaid(items), InfallibleUnpaid(_)) => LoadUnpaidLocks(cfg, env, s, items);
        case (UnloadSigned(inputs, proofs, _), Signed(_)) => ProcessInputsLocks(cfg, s, inputs, proofs);
        case _ =>
      }
    }
  }

  lemma TokenDispatchLocks(cfg: Config, env: Env, s: State, call: Call, origin: Origin)
    requires Amount(cfg.denom, cfg.denom.minExp) > 0 && origin.UnloadToken? && Dispatch(cfg, env, s, call, origin).Some?
    ensures Dispatch(cfg, env, s, call, origin).value.locked == s.locked
  {
  }

  /** Transactions of others, and every other step, leave the lock alone. */
  lemma LockFrame(cfg: Config, s: State, step: Step, who: Account)
    requires Amount(cfg.denom, cfg.denom.minExp) > 0 && !UsesCoin(cfg, s, step, who)
    ensures who in Next(cfg, s, step).locked <==> who in s.locked
    ensures who in s.locked ==> Next(cfg, s, step).locked[who] == s.locked[who]
  {
    if step.Tx? && Decodes(cfg, step.call) && Validate(cfg, step.env, s, step.ext, step.call).Some? {
      var origin := Validate(cfg, step.env, s, step.ext, step.call).value;
      var p := Prepare(s, origin);
      assert p.locked == s.locked;
      if Dispatch(cfg, step.env, p, step.call, origin).Some? {
        DispatchLocks(cfg, step.env, p, step.call, origin);
      }
    }
  }

  lemma NextTracks(cfg: Config, s: State, step: Step, who: Account, t: Track)
    requires Amount(cfg.denom, cfg.denom.minExp) > 0 && LockMatches(cfg, s, who, t)
    ensures LockMatches(cfg, Next(cfg, s, step), who, Observe(cfg, s, step, who, t))
  {
    if UsesCoin(cfg, s, step, who) {
      var p := s.(coins := s.coins - {who});
      var origin := CoinOrigin(who, s.coins[who]);
      if UseFails(cfg, s, step, who) {
        BackoffIsExponential(cfg.lockBase, t.failures + 1);
      } else {
        DispatchLocks(cfg, step.env, p, step.call, origin);
      }
    } else {
      LockFrame(cfg, s, step, who);
    }
  }

  function ObserveRun(cfg: Config, s: State, steps: seq<Step>, who: Account, t: Track): Track
    requires Amount(cfg.denom, cfg.denom.minExp) > 0
    decreases |steps|
  {
    if steps == [] then t
    else ObserveRun(cfg, Next(cfg, s, steps[0]), steps[1..], who, Observe(cfg, s, steps[0], who, t))
  }

  /** After any run the lock of an account is the back-off for its current streak of failures. */
  lemma {:induction false} RunTracks(cfg: Config, s: State, steps: seq<Step>, who: Account, t: Track)
    requires Amount(cfg.denom, cfg.denom.minExp) > 0 && LockMatches(cfg, s, who, t)
    ensures LockMatches(cfg, Run(cfg, s, steps), who, ObserveRun(cfg, s, steps, who, t))
    decreases |steps|
  {
    if steps != [] {
      NextTracks(cfg, s, steps[0], who, t);
      RunTracks(cfg, Next(cfg, s, steps[0]), steps[1..], who, Observe(cfg, s, steps[0], who, t));
    }
  }

  /** While the back-off runs no use of the coin is accepted, and the coin stays as it is. */
  lemma LockedIsRefused(cfg: Config, env: Env, s: State, who: Account, call: Call, t: Track)
    requires Amount(cfg.denom, cfg.denom.minExp) > 0 && t.failures >= 1 && LockMatches(cfg, s, who, t)
    requires s.now < SatAdd(t.at, Backoff(cfg.lockBase, t.failures), U64_MAX)
    ensures Transact(cfg, env, s, AsCoin(who), call) == s
  {
  }

  /** A failed use costs nothing but time: every coin, the held funds and the rings are unchanged. */
  lemma FailureRestores(cfg: Config, s: State, step: Step, who: Account)
    requires Amount(cfg.denom, cfg.denom.minExp) > 0 && UsesCoin(cfg, s, step, who) && UseFails(cfg, s, step, who)
    ensures Next(cfg, s, step) == s.(locked := s.locked[who := LockAfterFailure(cfg, s, who)])
  {
    CoinFailure(cfg, s, who);
  }

  // ---------------------------------------------------------------------------------------------
  // Free movement runs out
  // ---------------------------------------------------------------------------------------------

  ghost function MovesOf(cfg: Config): Coin -> int {
    (c: Coin) => (cfg.maxAge - c.age) * Units(cfg.denom, c.value)
  }

  /** Movements left in the coins in circulation: remaining age times units, summed. */
  ghost function Moves(cfg: Config, coins: Coins): int {
    Tally(MovesOf(cfg), coins)
  }

  lemma MovesNonNegative(cfg: Config, coins: Coins)
    requires CoinsOk(cfg, coins)
    ensures Moves(cfg, coins) >= 0
  {
    forall a | a in coins
      ensures 0 <= MovesOf(cfg)(coins[a])
    {
      ProductNonNegative(cfg.maxAge - coins[a].age, Units(cfg.denom, coins[a].value));
    }
    TallyNonNegative(MovesOf(cfg), coins);
  }

  predicate FreeMove(step: Step) {
    step.Tx? && step.ext.AsCoin? && (step.call.Split? || step.call.Transfer?)
  }

  predicate Accepted(cfg: Config, s: State, step: Step) {
    step.Tx? && Decodes(cfg, step.call) && Validate(cfg, step.env, s, step.ext, step.call).Some?
  }

  lemma AgedProduct(m: int, u: int)
    ensures m * u == (m - 1) * u + u
    ensures (m - 1) * u == u * (m - 1)
  {
  }

  lemma SplitMoves(cfg: Config, coins: Coins, coin: Coin, into: seq<Group>, units: nat)
    requires coin.age < cfg.maxAge && ValidSplit(cfg.denom, cfg.maxSplit, coins.Keys, units, into)
    ensures Moves(cfg, Mint(coins, Outputs(into), coin.age + 1)) == Moves(cfg, coins) + units * (cfg.maxAge - coin.age - 1)
  {
    var w, scale, age := MovesOf(cfg), cfg.maxAge - coin.age - 1, coin.age + 1;
    SplitIsFresh(cfg.denom, cfg.maxSplit, coins, units, into);
    MintTally(w, coins, Outputs(into), age);
    forall v | InRange(cfg.denom, v)
      ensures w(Coin(v, age)) == Units(cfg.denom, v) * scale
    {
      AgedProduct(scale + 1, Units(cfg.denom, v));
    }
    SplitTally(w, cfg.denom, into, age, scale);
  }

  lemma SplitMoveCosts(cfg: Config, coins: Coins, who: Account, into: seq<Group>, units: nat)
    requires who in coins && coins[who].age < cfg.maxAge && units == Units(cfg.denom, coins[who].value)
    requires ValidSplit(cfg.denom, cfg.maxSplit, coins.Keys, units, into)
    ensures Moves(cfg, Mint(coins - {who}, Outputs(into), coins[who].age + 1)) == Moves(cfg, coins) - units
  {
    TallyRemove(MovesOf(cfg), coins, who);
    AgedProduct(cfg.maxAge - coins[who].age, units);
    SplitAfterTake(cfg.denom, cfg.maxSplit, coins, who, units, into);
    SplitMoves(cfg, coins - {who}, coins[who], into, units);
  }

  lemma TransferMoveCosts(cfg: Config, coins: Coins, who: Account, to: Account)
    requires who in coins && to !in coins
    ensures Moves(cfg, (coins - {who})[to := Coin(coins[who].value, coins[who].age + 1)])
         == Moves(cfg, coins) - Units(cfg.denom, coins[who].value)
  {
    TallyRemove(MovesOf(cfg), coins, who);
    AgedProduct(cfg.maxAge - coins[who].age, Units(cfg.denom, coins[who].value));
    TallyInsert(MovesOf(cfg), coins - {who}, to, Coin(coins[who].value, coins[who].age + 1));
  }

  /** The coins after an accepted free movement: always the outputs, one older than the input. */
  lemma FreeMoveResult(cfg: Config, s: State, step: Step)
    requires cfg.maxAge <= U16_MAX && Amount(cfg.denom, cfg.denom.minExp) > 0
    requires FreeMove(step) && Accepted(cfg, s, step)
    ensures step.ext.who in s.coins
    ensures var who := step.ext.who;
      Next(cfg, s, step).coins
      == if step.call.Split? then Mint(s.coins - {who}, Outputs(step.call.into), s.coins[who].age + 1)
         else (s.coins - {who})[step.call.to := Coin(s.coins[who].value, s.coins[who].age + 1)]
  {
  }

  /** An accepted split or transfer uses up as many movements as the coin has units. */
  lemma FreeMoveCosts(cfg: Config, s: State, step: Step)
    requires ConfigOk(cfg) && Inv(cfg, s) && Amount(cfg.denom, cfg.denom.minExp) > 0
    requires FreeMove(step) && Accepted(cfg, s, step)
    ensures Moves(cfg, Next(cfg, s, step).coins) == Moves(cfg, s.coins) - Units(cfg.denom, s.coins[step.ext.who].value)
    ensures Units(cfg.denom, s.coins[step.ext.who].value) >= 1
  {
    FreeMoveResult(cfg, s, step);
    FreeMoveChecked(cfg, s, step);
    MoveCosts(cfg, s.coins, step.ext.who, step.call, Next(cfg, s, step).coins);
  }

  lemma MoveCosts(cfg: Config, coins: Coins, who: Account, call: Call, after: Coins)
    requires who in coins && coins[who].age < cfg.maxAge && (call.Split? || call.Transfer?)
    requires call.Split? ==>
      && ValidSplit(cfg.denom, cfg.maxSplit, coins.Keys, Units(cfg.denom, coins[who].value), call.into)
      && after == Mint(coins - {who}, Outputs(call.into), coins[who].age + 1)
    requires call.Transfer? ==> call.to !in coins && after == (coins - {who})[call.to := Coin(coins[who].value, coins[who].age + 1)]
    ensures Moves(cfg, after) == Moves(cfg, coins) - Units(cfg.denom, coins[who].value)
  {
    if call.Split? {
      SplitMoveCosts(cfg, coins, who, call.into, Units(cfg.denom, coins[who].value));
    } else {
      TransferMoveCosts(cfg, coins, who, call.to);
    }
  }

  /** What validation established about an accepted free movement. */
  lemma FreeMoveChecked(cfg: Config, s: State, step: Step)
    requires ConfigOk(cfg) && Inv(cfg, s) && Amount(cfg.denom, cfg.denom.minExp) > 0
    requires FreeMove(step) && Accepted(cfg, s, step)
    ensures var who := step.ext.who;
      && who in s.coins && s.coins[who].age < cfg.maxAge && Units(cfg.denom, s.coins[who].value) >= 1
      && (step.call.Split? ==> ValidSplit(cfg.denom, cfg.maxSplit, s.coins.Keys, Units(cfg.denom, s.coins[who].value), step.call.into))
      && (step.call.Transfer? ==> step.call.to !in s.coins)
  {
    PriceIsUnits(cfg, s.coins[step.ext.who].value);
  }
}
