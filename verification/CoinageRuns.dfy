/**
  The invariant of the coinage pallet over every run: after every transaction, accepted, rejected
  or failed, the held balance equals the coins, plus the recycler members not yet unloaded, plus
  what was destroyed; no coin is out of range or overwritten, and every lock guards a coin.
*/
module CoinageRuns {
  import opened Prelude
  import opened Denomination
  import opened SplitValidation
  import opened CoinLedger
  import opened Coinage
  import opened CoinageBalance
  import opened CoinageUnload
  import R = Recyclers
  import RI = RecyclerInvariant
  import RL = RecyclerLaws

  /** Held funds equal coins plus net recyclers plus destroyed value. */
  ghost predicate Solvent(cfg: Config, s: State) {
    s.held == Worth(cfg, s.coins) + RI.Value(cfg.price, s.rec) + s.destroyed
  }

  ghost predicate Inv(cfg: Config, s: State) {
    && CoinsOk(cfg, s.coins)
    && RecyclersOk(cfg, s.rec)
    && s.locked.Keys <= s.coins.Keys
    && Solvent(cfg, s)
    && s.held <= cfg.maxBalance
  }

  lemma MinPricePositive(cfg: Config)
    requires ConfigOk(cfg)
    ensures Amount(cfg.denom, cfg.denom.minExp) > 0
  {
    MinimumPositive(cfg.denom);
  }

  // ---------------------------------------------------------------------------------------------
  // Transactions made with a coin
  // ---------------------------------------------------------------------------------------------

  /** What a successful dispatch under a coin origin has to leave behind. */
  ghost predicate CoinOutcome(cfg: Config, prepared: State, t: State) {
    && CoinsOk(cfg, t.coins) && RecyclersOk(cfg, t.rec) && Balanced(cfg, t, 0)
    && t.held <= cfg.maxBalance && prepared.coins.Keys <= t.coins.Keys && t.locked == prepared.locked
  }

  lemma TakeCoin(cfg: Config, s: State, who: Account)
    requires Inv(cfg, s) && who in s.coins
    ensures var p := s.(coins := s.coins - {who});
      CoinsOk(cfg, p.coins) && Balanced(cfg, p, cfg.price[s.coins[who].value])
  {
    WorthRemove(cfg, s.coins, who);
  }

  lemma CoinDispatch(cfg: Config, env: Env, s: State, who: Account, call: Call)
    requires ConfigOk(cfg) && Inv(cfg, s) && who in s.coins && Amount(cfg.denom, cfg.denom.minExp) > 0
    requires CoinCallOk(cfg, env, s, who, s.coins[who], call)
    requires Dispatch(cfg, env, s.(coins := s.coins - {who}), call, CoinOrigin(who, s.coins[who])).Some?
    ensures CoinOutcome(cfg, s.(coins := s.coins - {who}),
                        Dispatch(cfg, env, s.(coins := s.coins - {who}), call, CoinOrigin(who, s.coins[who])).value)
  {
    var p, coin := s.(coins := s.coins - {who}), s.coins[who];
    TakeCoin(cfg, s, who);
    match call {
      case Split(into) =>
        SplitDispatch(cfg, s, who, coin, into);
      case Transfer(to) =>
        TransferConserves(cfg, p, coin, to);
      case LoadCoin(member) =>
        LoadCoinConserves(cfg, env, p, coin, member);
      case PayTokenWithCoin =>
        PayTokenConserves(cfg, env, p, coin);
      case Offboard(to) =>
        OffboardConserves(cfg, env, p, coin, to);
    }
  }

  lemma SplitDispatch(cfg: Config, s: State, who: Account, coin: Coin, into: seq<Group>)
    requires ConfigOk(cfg) && Inv(cfg, s) && who in s.coins && coin == s.coins[who] && coin.age < cfg.maxAge
    requires CoinUnit(cfg.denom, coin.value).Some?
    requires ValidSplitExec(cfg.denom, cfg.maxSplit, s.coins.Keys, CoinUnit(cfg.denom, coin.value).value, into)
    ensures CoinOutcome(cfg, s.(coins := s.coins - {who}), DispatchSplit(s.(coins := s.coins - {who}), coin, into).value)
  {
    TakeCoin(cfg, s, who);
    SplitAfterTake(cfg.denom, cfg.maxSplit, s.coins, who, CoinUnit(cfg.denom, coin.value).value, into);
    SplitConserves(cfg, s.(coins := s.coins - {who}), coin, into);
  }

  lemma CoinSuccess(cfg: Config, s: State, who: Account, t: State)
    requires Inv(cfg, s) && who in s.coins && CoinOutcome(cfg, s.(coins := s.coins - {who}), t)
    ensures Inv(cfg, PostSuccess(t, CoinOrigin(who, s.coins[who])))
  {
  }

  /** A failed dispatch leaves the identical coin at its owner; only the lock changes. */
  lemma CoinFailure(cfg: Config, s: State, who: Account)
    requires who in s.coins
    ensures var p := s.(coins := s.coins - {who});
      PostFailure(cfg, p, CoinOrigin(who, s.coins[who])) == s.(locked := s.locked[who := LockAfterFailure(cfg, s, who)])
  {
    assert (s.coins - {who})[who := s.coins[who]] == s.coins;
  }

  lemma CoinTransaction(cfg: Config, env: Env, s: State, who: Account, call: Call)
    requires ConfigOk(cfg) && Inv(cfg, s) && Amount(cfg.denom, cfg.denom.minExp) > 0
    ensures Inv(cfg, Transact(cfg, env, s, AsCoin(who), call))
  {
    CoinPhases(cfg, env, s, who, call);
    if who in s.coins && CoinCallOk(cfg, env, s, who, s.coins[who], call) {
      var r := Dispatch(cfg, env, s.(coins := s.coins - {who}), call, CoinOrigin(who, s.coins[who]));
      if r.Some? {
        CoinDispatch(cfg, env, s, who, call);
        CoinSuccess(cfg, s, who, r.value);
      } else {
        CoinFailure(cfg, s, who);
      }
    }
  }

  /** A coin transaction is rejected, or passes its checks and ends as its dispatch does. */
  lemma CoinPhases(cfg: Config, env: Env, s: State, who: Account, call: Call)
    requires Amount(cfg.denom, cfg.denom.minExp) > 0
    ensures var t := Transact(cfg, env, s, AsCoin(who), call);
      || t == s
      || (who in s.coins && CoinCallOk(cfg, env, s, who, s.coins[who], call)
          && var p, origin := s.(coins := s.coins - {who}), CoinOrigin(who, s.coins[who]);
             match Dispatch(cfg, env, p, call, origin)
             case Some(u) => t == PostSuccess(u, origin)
             case None => t == PostFailure(cfg, p, origin))
  {
  }

  // ---------------------------------------------------------------------------------------------
  // Unloads paid by a token or from the output
  // ---------------------------------------------------------------------------------------------

  /** What a successful unload has to leave behind. */
  ghost predicate UnloadOutcome(cfg: Config, prepared: State, t: State) {
    && CoinsOk(cfg, t.coins) && RecyclersOk(cfg, t.rec) && Balanced(cfg, t, 0)
    && t.held <= cfg.maxBalance && prepared.coins.Keys <= t.coins.Keys && t.locked == prepared.locked
  }

  /** The state an unload is dispatched in. */
  ghost predicate ReadyToUnload(cfg: Config, s: State, fee: FeeMode) {
    && CoinsOk(cfg, s.coins) && RecyclersOk(cfg, s.rec) && s.held <= cfg.maxBalance
    && Balanced(cfg, s, Pending(cfg, fee))
  }

  /** In an accepted configuration the fee quotient of every call that decodes and balances fits the word. */
  lemma FeeFits(cfg: Config, input: Input, maxFee: nat)
    requires ConfigOk(cfg) && Amount(cfg.denom, cfg.denom.minExp) > 0 && input.value in cfg.price
    requires |input.aliases| <= cfg.maxConsolidation && maxFee <= cfg.maxBalance
    requires ExpectedUnits(cfg.denom, input.value, |input.aliases|, maxFee).Ok?
    ensures maxFee / Amount(cfg.denom, cfg.denom.minExp) <= U32_MAX
  {
    if |input.aliases| < U32_MAX {
      UnitBalanceIsAssetBalance(cfg.denom, input.value, |input.aliases|, maxFee);
    } else {
      QuotientFits(maxFee, Amount(cfg.denom, cfg.denom.minExp));
    }
  }

  lemma UnloadDispatch(cfg: Config, env: Env, s: State, proofs: seq<R.Proof>, fee: FeeMode, call: Call)
    requires ConfigOk(cfg) && Amount(cfg.denom, cfg.denom.minExp) > 0 && Decodes(cfg, call)
    requires ReadyToUnload(cfg, s, fee)
    requires call.UnloadIntoCoin? ==> call.to !in s.coins
    requires call.UnloadIntoCoins? ==> call.input.value in cfg.price
    requires Dispatch(cfg, env, s, call, UnloadToken(proofs, fee)).Some?
    ensures UnloadOutcome(cfg, s, Dispatch(cfg, env, s, call, UnloadToken(proofs, fee)).value)
  {
    match call {
      case UnloadIntoCoin(input, to) =>
        IntoCoinConserves(cfg, s, input, proofs, fee, to);
      case UnloadIntoAsset(input, to) =>
        IntoAssetConserves(cfg, env, s, input, proofs, fee, to);
      case UnloadMixed(input, to, external, vouchers) =>
        MixedConserves(cfg, env, s, input, proofs, fee, to, external, vouchers);
      case UnloadIntoCoins(input, into, maxFee) =>
        FeeFits(cfg, input, maxFee);
        IntoCoinsConserves(cfg, env, s, input, proofs, fee, into, maxFee);
    }
  }

  lemma UnloadValueKnown(cfg: Config, env: Env, s: State, call: Call, fee: FeeMode)
    requires RecyclersOk(cfg, s.rec) && UnloadCallOk(cfg, env, s, call, fee)
    ensures call.UnloadIntoCoin? ==> call.to !in s.coins
    ensures call.UnloadIntoCoins? ==> call.input.value in cfg.price
  {
  }

  lemma TokenTransaction(cfg: Config, env: Env, s: State, proofs: seq<R.Proof>, tokenOk: bool, call: Call)
    requires ConfigOk(cfg) && Inv(cfg, s) && Amount(cfg.denom, cfg.denom.minExp) > 0
    ensures Inv(cfg, Transact(cfg, env, s, AsUnloadToken(proofs, tokenOk), call))
  {
    if Decodes(cfg, call) && UnloadCallOk(cfg, env, s, call, Prepaid) && tokenOk {
      UnloadValueKnown(cfg, env, s, call, Prepaid);
      if Dispatch(cfg, env, s, call, UnloadToken(proofs, Prepaid)).Some? {
        UnloadDispatch(cfg, env, s, proofs, Prepaid, call);
      }
    }
  }

  /** `prepare` of a from-output unload moves one coin's worth from the ring into `pending`. */
  lemma Premark(cfg: Config, s: State, value: int, index: nat, revision: nat, proofs: seq<R.Proof>)
    requires Inv(cfg, s) && FeeProofOk(cfg, s, value, index, revision, proofs)
    ensures var p := Prepare(s, UnloadToken(proofs, FromOutput(value, index)));
      && value in cfg.price && ReadyToUnload(cfg, p, FromOutput(value, index))
      && p == s.(rec := p.rec)
  {
    MarkFirst(cfg, s.rec, value, index, proofs[0].member);
  }

  lemma MarkFirst(cfg: Config, rec: R.Storage, value: int, index: nat, m: R.Member)
    requires RecyclersOk(cfg, rec) && value in rec.collections && index < |rec.collections[value].rings|
    requires !rec.collections[value].rings[index].removed && m in rec.collections[value].rings[index].members
    requires R.Alias(m) !in R.MarksOf(rec.marks, R.RingKey(value, index))
    ensures var t := R.MarkAll(rec, R.RingKey(value, index), {R.Alias(m)});
      RecyclersOk(cfg, t) && RI.Value(cfg.price, t) == RI.Value(cfg.price, rec) - RI.Price(cfg.price, value)
  {
    MarkFirstValue(cfg, rec, value, index, m);
    MarkFirstOk(cfg, rec, value, index, m);
  }

  lemma MarkFirstOk(cfg: Config, rec: R.Storage, value: int, index: nat, m: R.Member)
    requires RecyclersOk(cfg, rec) && value in rec.collections && index < |rec.collections[value].rings|
    requires m in rec.collections[value].rings[index].members
    ensures RecyclersOk(cfg, R.MarkAll(rec, R.RingKey(value, index), {R.Alias(m)}))
  {
    RL.MarkInv(rec, value, index, {R.Alias(m)});
  }

  lemma MarkFirstValue(cfg: Config, rec: R.Storage, value: int, index: nat, m: R.Member)
    requires value in rec.collections && index < |rec.collections[value].rings|
    requires !rec.collections[value].rings[index].removed && R.Alias(m) !in R.MarksOf(rec.marks, R.RingKey(value, index))
    ensures RI.Value(cfg.price, R.MarkAll(rec, R.RingKey(value, index), {R.Alias(m)}))
         == RI.Value(cfg.price, rec) - RI.Price(cfg.price, value)
  {
    RL.MarkValue(cfg.price, rec, value, index, {R.Alias(m)});
  }

  /** The penalty of a failed from-output unload: the premarked coin is destroyed, not lost. */
  lemma PenaltyConserves(cfg: Config, s: State, value: int, index: nat, proofs: seq<R.Proof>)
    requires value in cfg.price && ReadyToUnload(cfg, s, FromOutput(value, index))
    ensures var t := PostFailure(cfg, s, UnloadToken(proofs, FromOutput(value, index)));
      Balanced(cfg, t, 0) && t == s.(destroyed := s.destroyed + cfg.price[value])
  {
    PendingCovered(cfg, s, cfg.price[value]);
    DestroyExact(cfg, s, cfg.price[value]);
  }

  lemma FromOutputExecute(cfg: Config, env: Env, s: State, value: int, index: nat, revision: nat, proofs: seq<R.Proof>, call: Call)
    requires ConfigOk(cfg) && Inv(cfg, s) && Amount(cfg.denom, cfg.denom.minExp) > 0 && Decodes(cfg, call)
    requires FeeProofOk(cfg, s, value, index, revision, proofs)
    requires call.UnloadIntoCoin? ==> call.to !in s.coins
    requires call.UnloadIntoCoins? ==> call.input.value in cfg.price
    ensures Inv(cfg, Execute(cfg, env, s, call, UnloadToken(proofs, FromOutput(value, index))))
  {
    var origin := UnloadToken(proofs, FromOutput(value, index));
    Premark(cfg, s, value, index, revision, proofs);
    var p := Prepare(s, origin);
    if Dispatch(cfg, env, p, call, origin).Some? {
      UnloadDispatch(cfg, env, p, proofs, FromOutput(value, index), call);
    } else {
      PenaltyConserves(cfg, p, value, index, proofs);
    }
  }

  lemma FromOutputTransaction(cfg: Config, env: Env, s: State, value: int, index: nat, revision: nat, proofs: seq<R.Proof>, call: Call)
    requires ConfigOk(cfg) && Inv(cfg, s) && Amount(cfg.denom, cfg.denom.minExp) > 0
    ensures Inv(cfg, Transact(cfg, env, s, AsUnloadFromOutput(value, index, revision, proofs), call))
  {
    var ext := AsUnloadFromOutput(value, index, revision, proofs);
    if Decodes(cfg, call) && Validate(cfg, env, s, ext, call).Some? {
      UnloadValueKnown(cfg, env, s, call, FromOutput(value, index));
      FromOutputExecute(cfg, env, s, value, index, revision, proofs, call);
    }
  }

  // ---------------------------------------------------------------------------------------------
  // Signed, unpaid and maintenance transactions
  // ---------------------------------------------------------------------------------------------

  lemma SignedTransaction(cfg: Config, env: Env, s: State, who: Account, call: Call)
    requires ConfigOk(cfg) && Inv(cfg, s) && Amount(cfg.denom, cfg.denom.minExp) > 0
    ensures Inv(cfg, Transact(cfg, env, s, NoExtension(who), call))
  {
    SignedOutcome(cfg, env, s, who, call);
    match call {
      case LoadExternal(v, member) =>
        if LoadOne(cfg, env, s, v, member).Some? {
          LoadOneConserves(cfg, env, s, v, member);
        }
      case UnloadSigned(inputs, proofs, to) =>
        if DispatchSigned(cfg, env, s, inputs, proofs, to).Some? {
          SignedConserves(cfg, env, s, inputs, proofs, to);
        }
      case _ =>
    }
  }

  /** A signed call takes full effect or none, and only two calls have one. */
  lemma SignedOutcome(cfg: Config, env: Env, s: State, who: Account, call: Call)
    requires Amount(cfg.denom, cfg.denom.minExp) > 0
    ensures var t := Transact(cfg, env, s, NoExtension(who), call);
      match call
      case LoadExternal(v, member) => t == s || LoadOne(cfg, env, s, v, member) == Some(t)
      case UnloadSigned(inputs, proofs, to) => t == s || DispatchSigned(cfg, env, s, inputs, proofs, to) == Some(t)
      case _ => t == s
  {
  }

  lemma UnpaidTransaction(cfg: Config, env: Env, s: State, who: Account, accepted: bool, call: Call)
    requires ConfigOk(cfg) && Inv(cfg, s) && Amount(cfg.denom, cfg.denom.minExp) > 0
    ensures Inv(cfg, Transact(cfg, env, s, AsInfallibleUnpaid(who, accepted), call))
  {
    UnpaidOutcome(cfg, env, s, who, accepted, call);
    if call.LoadUnpaid? && DispatchLoadUnpaid(cfg, env, s, call.items).Some? {
      LoadUnpaidConserves(cfg, env, s, call.items);
    }
  }

  /** An unpaid load either takes full effect or is not included. */
  lemma UnpaidOutcome(cfg: Config, env: Env, s: State, who: Account, accepted: bool, call: Call)
    requires Amount(cfg.denom, cfg.denom.minExp) > 0
    ensures Transact(cfg, env, s, AsInfallibleUnpaid(who, accepted), call)
         == if accepted && call.LoadUnpaid? && DispatchLoadUnpaid(cfg, env, s, call.items).Some?
            then DispatchLoadUnpaid(cfg, env, s, call.items).value else s
  {
  }

  lemma MaintenanceTransaction(cfg: Config, env: Env, s: State, call: Call)
    requires ConfigOk(cfg) && Inv(cfg, s) && Amount(cfg.denom, cfg.denom.minExp) > 0
    ensures Inv(cfg, Transact(cfg, env, s, LocalAuthorized, call))
  {
    MaintenanceOutcome(cfg, env, s, call);
    match call {
      case CleanRecycler(v) =>
        if DispatchClean(cfg, env, s, v).Some? {
          CleanConserves(cfg, env, s, v);
        }
      case CleanRecyclerDust(k, batch) =>
        if k in s.rec.dusting {
          DustConserves(cfg, s, k, batch);
        }
      case _ =>
    }
  }

  lemma MaintenanceOutcome(cfg: Config, env: Env, s: State, call: Call)
    requires Amount(cfg.denom, cfg.denom.minExp) > 0
    ensures var t := Transact(cfg, env, s, LocalAuthorized, call);
      match call
      case CleanRecycler(v) => t == s || DispatchClean(cfg, env, s, v) == Some(t)
      case CleanRecyclerDust(k, batch) => t == s || (k in s.rec.dusting && t == s.(rec := R.CleanDust(s.rec, k, batch)))
      case _ => t == s
  {
  }

  lemma TransactKeepsInv(cfg: Config, env: Env, s: State, ext: Extension, call: Call)
    requires ConfigOk(cfg) && Amount(cfg.denom, cfg.denom.minExp) > 0
    ensures Inv(cfg, s) ==> Inv(cfg, Transact(cfg, env, s, ext, call))
  {
    if Inv(cfg, s) {
      TransactKeeps(cfg, env, s, ext, call);
    }
  }

  lemma TransactKeeps(cfg: Config, env: Env, s: State, ext: Extension, call: Call)
    requires ConfigOk(cfg) && Inv(cfg, s) && Amount(cfg.denom, cfg.denom.minExp) > 0
    ensures Inv(cfg, Transact(cfg, env, s, ext, call))
  {
    match ext {
      case NoExtension(who) => SignedTransaction(cfg, env, s, who, call);
      case AsCoin(who) => CoinTransaction(cfg, env, s, who, call);
      case AsUnloadToken(proofs, tokenOk) => TokenTransaction(cfg, env, s, proofs, tokenOk, call);
      case AsUnloadFromOutput(value, index, revision, proofs) =>
        FromOutputTransaction(cfg, env, s, value, index, revision, proofs, call);
      case AsInfallibleUnpaid(who, accepted) => UnpaidTransaction(cfg, env, s, who, accepted, call);
      case LocalAuthorized => MaintenanceTransaction(cfg, env, s, call);
    }
  }

  // ---------------------------------------------------------------------------------------------
  // Every step, every run
  // ---------------------------------------------------------------------------------------------

  lemma RecyclerStepKeeps(cfg: Config, s: State, rec: R.Storage)
    requires Inv(cfg, s) && RI.Inv(rec) && rec.collections.Keys == s.rec.collections.Keys
    requires RI.Value(cfg.price, rec) == RI.Value(cfg.price, s.rec)
    ensures Inv(cfg, s.(rec := rec))
  {
    assert RecyclersOk(cfg, rec) by {
      forall v | v in rec.collections
        ensures v in cfg.price
      {
        assert v in s.rec.collections.Keys;
      }
    }
  }

  lemma NextKeeps(cfg: Config, s: State, step: Step)
    requires ConfigOk(cfg) && Inv(cfg, s) && Amount(cfg.denom, cfg.denom.minExp) > 0
    ensures Inv(cfg, Next(cfg, s, step))
  {
    match step {
      case Tx(env, ext, call) => TransactKeeps(cfg, env, s, ext, call);
      case Onboard(v, startNew) =>
        if R.CanOnboard(s.rec, v) {
          RL.OnboardInv(s.rec, v, startNew);
          RL.OnboardValue(cfg.price, s.rec, v, startNew);
          RecyclerStepKeeps(cfg, s, R.Onboard(s.rec, v, startNew));
        }
      case Rebuild(v, i, revisions, sealedAt) =>
        if v in s.rec.collections && i < |s.rec.collections[v].rings| {
          RL.RebuildInv(s.rec, v, i, revisions, sealedAt);
          RL.RebuildValue(cfg.price, s.rec, v, i, revisions, sealedAt);
          RecyclerStepKeeps(cfg, s, R.Rebuild(s.rec, v, i, revisions, sealedAt));
        }
      case Tick(_) =>
    }
  }

  /** Solvency, with everything it rests on, after every run from a state that has it. */
  lemma {:induction false} RunKeeps(cfg: Config, s: State, steps: seq<Step>)
    requires ConfigOk(cfg) && Inv(cfg, s) && Amount(cfg.denom, cfg.denom.minExp) > 0
    ensures Inv(cfg, Run(cfg, s, steps))
    decreases |steps|
  {
    if steps != [] {
      NextKeeps(cfg, s, steps[0]);
      RunKeeps(cfg, Next(cfg, s, steps[0]), steps[1..]);
    }
  }

  /** The genesis state: nothing held, nothing owed. */
  function Genesis(now: nat): State {
    State(now, map[], map[], 0, 0, R.Storage(map[], map[], map[], {}, map[]), Flow(0, map[], 0))
  }

  lemma GenesisInv(cfg: Config, now: nat)
    ensures Inv(cfg, Genesis(now))
  {
    var s := Genesis(now);
    RI.EmptyInv(s.rec);
    assert Weights(WorthOf(cfg.price), s.coins) == map[];
    assert RI.Ledger(cfg.price, s.rec) == map[];
  }

  /** From genesis on, every reachable state is solvent. */
  lemma ReachableIsSolvent(cfg: Config, now: nat, steps: seq<Step>)
    requires ConfigOk(cfg)
    ensures Amount(cfg.denom, cfg.denom.minExp) > 0
    ensures Inv(cfg, Run(cfg, Genesis(now), steps)) && Solvent(cfg, Run(cfg, Genesis(now), steps))
  {
    MinPricePositive(cfg);
    GenesisInv(cfg, now);
    RunKeeps(cfg, Genesis(now), steps);
  }
}
