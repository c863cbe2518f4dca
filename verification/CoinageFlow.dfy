/**
  Where the money goes. Over every run, what users ever deposited is what the pallet still holds, what
  accounts received and what the fee destination received; with solvency, every unit is a coin, a
  recycler member, destroyed value, or was paid out.
*/
module CoinageFlow {
  import opened Prelude
  import opened Sums
  import opened Denomination
  import opened SplitValidation
  import opened CoinLedger
  import opened Coinage
  import opened CoinageBalance
  import opened CoinageRuns
  import R = Recyclers
  import RI = RecyclerInvariant

  /** Everything accounts received out of the hold. */
  ghost function PaidOut(f: Flow): int {
    Sum(f.received)
  }

  /** Deposits not paid out again are held. */
  ghost predicate Closed(s: State) {
    s.flow.deposits == s.held + PaidOut(s.flow) + s.flow.fees
  }

  /** The step moves no money. */
  ghost predicate Still(s: State, t: State) {
    t.held == s.held && t.flow == s.flow
  }

  lemma CreditAdds(f: Flow, to: Account, amount: nat)
    ensures PaidOut(Credit(f, to, amount)) == PaidOut(f) + amount
  {
    var m: map<Account, int> := f.received;
    if to in m {
      SumUpdate(m, to, Received(f, to) + amount);
    } else {
      SumInsert(m, to, amount);
    }
  }

  lemma PayOutCloses(env: Env, s: State, to: Account, amount: nat)
    requires Closed(s)
    ensures PayOut(env, s, to, amount).Some? ==> Closed(PayOut(env, s, to, amount).value)
  {
    CreditAdds(s.flow, to, amount);
  }

  lemma DeductCloses(env: Env, s: State, total: nat)
    requires Closed(s)
    ensures DeductFee(env, s, total).Some? ==> Closed(DeductFee(env, s, total).value.0)
  {
  }

  lemma RecipientCloses(env: Env, s: State, to: Account, total: nat, fee: FeeMode)
    requires Closed(s)
    ensures PayRecipient(env, s, to, total, fee).Some? ==> Closed(PayRecipient(env, s, to, total, fee).value)
  {
    if fee.Prepaid? {
      PayOutCloses(env, s, to, total);
    } else {
      DeductCloses(env, s, total);
      var r := DeductFee(env, s, total);
      if r.Some? {
        PayOutCloses(env, r.value.0, to, r.value.1);
      }
    }
  }

  lemma {:induction false} LoadUnpaidCloses(cfg: Config, env: Env, s: State, items: seq<R.Voucher>)
    requires Closed(s)
    ensures DispatchLoadUnpaid(cfg, env, s, items).Some? ==> Closed(DispatchLoadUnpaid(cfg, env, s, items).value)
    decreases |items|
  {
    if items != [] {
      LoadUnpaidCloses(cfg, env, s, items[..|items| - 1]);
    }
  }

  lemma {:induction false} InputsAreStill(cfg: Config, s: State, inputs: seq<Input>, proofs: seq<R.Proof>)
    ensures ProcessInputs(cfg, s, inputs, proofs).Some? ==> Still(s, ProcessInputs(cfg, s, inputs, proofs).value)
    decreases |inputs|
  {
    if inputs != [] {
      var n := |inputs| - 1;
      if |inputs[n].aliases| <= |proofs| {
        InputsAreStill(cfg, s, inputs[..n], proofs[..|proofs| - |inputs[n].aliases|]);
      }
    }
  }

  lemma AssetCloses(cfg: Config, env: Env, s: State, input: Input, proofs: seq<R.Proof>, fee: FeeMode, to: Account)
    requires Closed(s)
    ensures var r := DispatchIntoAsset(cfg, env, s, input, proofs, fee, to); r.Some? ==> Closed(r.value)
  {
    var t := ProcessInput(cfg, s, input, proofs, fee);
    if t.Some? && input.value in cfg.price {
      RecipientCloses(env, t.value, to, SatMul(cfg.price[input.value], |input.aliases|, cfg.maxBalance), fee);
    }
  }

  lemma MixedCloses(cfg: Config, env: Env, s: State, input: Input, proofs: seq<R.Proof>, fee: FeeMode, to: Account,
                    external: nat, vouchers: seq<R.Voucher>)
    requires Closed(s)
    ensures var r := DispatchMixed(cfg, env, s, input, proofs, fee, to, external, vouchers); r.Some? ==> Closed(r.value)
  {
    var t := ProcessInput(cfg, s, input, proofs, fee);
    if t.Some? && R.LoadGroupedSpec(env.load, t.value.rec, vouchers).Some? {
      RecipientCloses(env, t.value.(rec := R.LoadGroupedSpec(env.load, t.value.rec, vouchers).value), to, external, fee);
    }
  }

  lemma ForCoinsCloses(cfg: Config, env: Env, s: State, input: Input, proofs: seq<R.Proof>, fee: FeeMode, maxFee: nat)
    requires Closed(s)
    ensures var r := ProcessForCoins(cfg, env, s, input, proofs, fee, maxFee); r.Some? ==> Closed(r.value)
  {
  }

  lemma SignedCloses(cfg: Config, env: Env, s: State, inputs: seq<Input>, proofs: seq<R.Proof>, to: Account)
    requires Closed(s)
    ensures var r := DispatchSigned(cfg, env, s, inputs, proofs, to); r.Some? ==> Closed(r.value)
  {
    InputsAreStill(cfg, s, inputs, proofs);
    var t, total := ProcessInputs(cfg, s, inputs, proofs), SignedTotal(cfg, inputs);
    if t.Some? && total.Some? {
      PayOutCloses(env, t.value, to, total.value);
    }
  }

  lemma TokenDispatchCloses(cfg: Config, env: Env, s: State, call: Call, proofs: seq<R.Proof>, fee: FeeMode)
    requires Amount(cfg.denom, cfg.denom.minExp) > 0 && Closed(s)
    ensures var r := Dispatch(cfg, env, s, call, UnloadToken(proofs, fee)); r.Some? ==> Closed(r.value)
  {
    match call {
      case UnloadIntoAsset(input, to) => AssetCloses(cfg, env, s, input, proofs, fee, to);
      case UnloadMixed(input, to, external, vouchers) => MixedCloses(cfg, env, s, input, proofs, fee, to, external, vouchers);
      case UnloadIntoCoins(input, into, maxFee) => ForCoinsCloses(cfg, env, s, input, proofs, fee, maxFee);
      case _ =>
    }
  }

  lemma CoinDispatchCloses(cfg: Config, env: Env, s: State, call: Call, owner: Account, coin: Coin)
    requires Amount(cfg.denom, cfg.denom.minExp) > 0 && Closed(s)
    ensures var r := Dispatch(cfg, env, s, call, CoinOrigin(owner, coin)); r.Some? ==> Closed(r.value)
  {
    match call {
      case Offboard(to) =>
        if coin.value in cfg.price {
          PayOutCloses(env, s, to, cfg.price[coin.value]);
        }
      case _ =>
    }
  }

  lemma OtherDispatchCloses(cfg: Config, env: Env, s: State, call: Call, origin: Origin)
    requires Amount(cfg.denom, cfg.denom.minExp) > 0 && Closed(s) && !origin.CoinOrigin? && !origin.UnloadToken?
    ensures var r := Dispatch(cfg, env, s, call, origin); r.Some? ==> Closed(r.value)
  {
    match call {
      case LoadUnpaid(items) => LoadUnpaidCloses(cfg, env, s, items);
      case UnloadSigned(inputs, proofs, to) => SignedCloses(cfg, env, s, inputs, proofs, to);
      case _ =>
    }
  }

  lemma DispatchCloses(cfg: Config, env: Env, s: State, call: Call, origin: Origin)
    requires Amount(cfg.denom, cfg.denom.minExp) > 0 && Closed(s)
    ensures var r := Dispatch(cfg, env, s, call, origin); r.Some? ==> Closed(r.value)
  {
    match origin {
      case CoinOrigin(owner, coin) => CoinDispatchCloses(cfg, env, s, call, owner, coin);
      case UnloadToken(proofs, fee) => TokenDispatchCloses(cfg, env, s, call, proofs, fee);
      case _ => OtherDispatchCloses(cfg, env, s, call, origin);
    }
  }

  lemma NextCloses(cfg: Config, s: State, step: Step)
    requires Amount(cfg.denom, cfg.denom.minExp) > 0 && Closed(s)
    ensures Closed(Next(cfg, s, step))
  {
    if step.Tx? && Decodes(cfg, step.call) && Validate(cfg, step.env, s, step.ext, step.call).Some? {
      var origin := Validate(cfg, step.env, s, step.ext, step.call).value;
      var p := Prepare(s, origin);
      assert Still(s, p);
      DispatchCloses(cfg, step.env, p, step.call, origin);
    }
  }

  lemma {:induction false} RunCloses(cfg: Config, s: State, steps: seq<Step>)
    requires Amount(cfg.denom, cfg.denom.minExp) > 0 && Closed(s)
    ensures Closed(Run(cfg, s, steps))
    decreases |steps|
  {
    if steps != [] {
      NextCloses(cfg, s, steps[0]);
      RunCloses(cfg, Next(cfg, s, steps[0]), steps[1..]);
    }
  }

  /**
    From genesis, after every run: deposits = coins + recycler members not unloaded + destroyed value
    + what accounts received + fees.
  */
  lemma DepositsAccounted(cfg: Config, now: nat, steps: seq<Step>)
    requires ConfigOk(cfg)
    ensures Amount(cfg.denom, cfg.denom.minExp) > 0
    ensures var s := Run(cfg, Genesis(now), steps);
      s.flow.deposits == Worth(cfg, s.coins) + RI.Value(cfg.price, s.rec) + s.destroyed + PaidOut(s.flow) + s.flow.fees
  {
    ReachableIsSolvent(cfg, now, steps);
    assert Closed(Genesis(now)) by {
      assert Genesis(now).flow.received == map[];
    }
    RunCloses(cfg, Genesis(now), steps);
  }
}
