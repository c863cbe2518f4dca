/** Conservation of the unloading calls and of ring clean-up. */
module CoinageUnload {
  import opened Prelude
  import opened Powers
  import opened Denomination
  import opened SplitValidation
  import opened CoinLedger
  import opened Coinage
  import opened CoinageBalance
  import R = Recyclers
  import RI = RecyclerInvariant
  import RL = RecyclerLaws

  /** What a successful unload of the named aliases is worth. */
  ghost function InputWorth(cfg: Config, input: Input): nat {
    |input.aliases| * RI.Price(cfg.price, input.value)
  }

  lemma UnloadConserves(cfg: Config, s: State, input: Input, proofs: seq<R.Proof>)
    requires RecyclersOk(cfg, s.rec) && Unload(cfg, s, input, proofs).Some?
    ensures var t := Unload(cfg, s, input, proofs).value;
      && RecyclersOk(cfg, t.rec) && t == s.(rec := t.rec) && t.rec.loaded == s.rec.loaded
      && RI.Value(cfg.price, t.rec) == RI.Value(cfg.price, s.rec) - InputWorth(cfg, input)
    ensures input.value in cfg.price
  {
    RL.UnloadLaw(cfg.price, s.rec, s.now, cfg.expiry, input.value, input.index, input.revision, input.aliases, proofs);
  }

  /** Value `prepare` has set aside for an unload under this fee mode. */
  ghost function Pending(cfg: Config, fee: FeeMode): nat {
    if fee.Prepaid? then 0 else RI.Price(cfg.price, fee.value)
  }

  lemma OneLess(n: nat, p: nat)
    requires n >= 1
    ensures (n - 1) * p == n * p - p
  {
  }

  lemma ProcessInputConserves(cfg: Config, s: State, input: Input, proofs: seq<R.Proof>, fee: FeeMode)
    requires RecyclersOk(cfg, s.rec) && ProcessInput(cfg, s, input, proofs, fee).Some?
    requires Balanced(cfg, s, Pending(cfg, fee))
    ensures var t := ProcessInput(cfg, s, input, proofs, fee).value;
      && RecyclersOk(cfg, t.rec) && t == s.(rec := t.rec) && t.rec.loaded == s.rec.loaded
      && Balanced(cfg, t, InputWorth(cfg, input))
  {
    if fee.Prepaid? {
      UnloadConserves(cfg, s, input, proofs);
    } else {
      OneLess(|input.aliases|, RI.Price(cfg.price, input.value));
      if |input.aliases| > 1 {
        UnloadConserves(cfg, s, Rest(input), proofs[1..]);
      }
    }
  }

  /** What remains owed for the outputs is covered by the held balance. */
  lemma PendingCovered(cfg: Config, s: State, pending: int)
    requires RI.Inv(s.rec) && Balanced(cfg, s, pending)
    ensures s.destroyed + pending <= s.held
  {
    OwedNonNegative(cfg, s);
  }

  lemma PayRecipientConserves(cfg: Config, env: Env, s: State, to: Account, total: nat, fee: FeeMode)
    requires Balanced(cfg, s, total) && PayRecipient(env, s, to, total, fee).Some?
    ensures var t := PayRecipient(env, s, to, total, fee).value;
      Balanced(cfg, t, 0) && t == s.(held := t.held, flow := t.flow) && t.held <= s.held
  {
  }

  lemma IntoAssetConserves(cfg: Config, env: Env, s: State, input: Input, proofs: seq<R.Proof>, fee: FeeMode, to: Account)
    requires RecyclersOk(cfg, s.rec) && s.held <= cfg.maxBalance
    requires Balanced(cfg, s, Pending(cfg, fee)) && DispatchIntoAsset(cfg, env, s, input, proofs, fee, to).Some?
    ensures var t := DispatchIntoAsset(cfg, env, s, input, proofs, fee, to).value;
      && Balanced(cfg, t, 0) && RecyclersOk(cfg, t.rec)
      && t == s.(rec := t.rec, held := t.held, flow := t.flow) && t.held <= s.held
  {
    ProcessInputConserves(cfg, s, input, proofs, fee);
    var t := ProcessInput(cfg, s, input, proofs, fee).value;
    PendingCovered(cfg, t, InputWorth(cfg, input));
    SatMulExact(cfg.price[input.value], |input.aliases|, cfg.maxBalance);
    PayRecipientConserves(cfg, env, t, to, InputWorth(cfg, input), fee);
  }

  lemma SatMulExact(p: nat, n: nat, max: nat)
    requires n * p <= max
    ensures SatMul(p, n, max) == n * p
  {
    assert p * n == n * p;
  }

  // ---------------------------------------------------------------------------------------------
  // Into one coin
  // ---------------------------------------------------------------------------------------------

  lemma {:induction false} PowerOfTwoValue(n: nat)
    requires IsPowerOfTwo(n)
    ensures n == Pow2(TrailingZeros(n))
  {
    if n > 1 {
      PowerOfTwoValue(n / 2);
    }
  }

  lemma IntoCoinConserves(cfg: Config, s: State, input: Input, proofs: seq<R.Proof>, fee: FeeMode, to: Account)
    requires ConfigOk(cfg) && RecyclersOk(cfg, s.rec) && CoinsOk(cfg, s.coins) && to !in s.coins
    requires Balanced(cfg, s, 0) && DispatchIntoCoin(cfg, s, input, proofs, fee, to).Some?
    ensures var t := DispatchIntoCoin(cfg, s, input, proofs, fee, to).value;
      && Balanced(cfg, t, 0) && RecyclersOk(cfg, t.rec) && CoinsOk(cfg, t.coins)
      && t == s.(rec := t.rec, coins := t.coins) && s.coins.Keys <= t.coins.Keys
  {
    UnloadConserves(cfg, s, input, proofs);
    var n := |input.aliases|;
    var k := TrailingZeros(n);
    PowerOfTwoValue(n);
    ConsolidatedPrice(cfg, input.value, k);
    WorthInsert(cfg, s.coins, to, Coin(input.value + k, 0));
  }

  lemma ConsolidatedPrice(cfg: Config, v: int, k: nat)
    requires ConfigOk(cfg) && v in cfg.price && v + k <= cfg.denom.maxExp
    ensures v + k in cfg.price && cfg.price[v + k] == Pow2(k) * RI.Price(cfg.price, v)
  {
    ConsolidationPreservesValue(cfg.denom, v, k);
  }

  // ---------------------------------------------------------------------------------------------
  // Into asset and vouchers
  // ---------------------------------------------------------------------------------------------

  lemma {:induction false} VoucherTotalIsValue(cfg: Config, vouchers: seq<R.Voucher>)
    requires VoucherTotal(cfg, vouchers).Some?
    ensures VoucherTotal(cfg, vouchers).value == RL.VoucherValue(cfg.price, vouchers)
    ensures forall i :: 0 <= i < |vouchers| ==> vouchers[i].value in cfg.price
    decreases |vouchers|
  {
    if vouchers != [] {
      var n := |vouchers| - 1;
      VoucherTotalIsValue(cfg, vouchers[..n]);
      assert forall i :: 0 <= i < n ==> vouchers[i] == vouchers[..n][i];
    }
  }

  lemma {:induction false} EnqueueAllCollections(rec: R.Storage, vouchers: seq<R.Voucher>, v: int)
    requires v in R.EnqueueAll(rec, vouchers).collections
    ensures v in rec.collections || exists i :: 0 <= i < |vouchers| && vouchers[i].value == v
    decreases |vouchers|
  {
    if vouchers != [] {
      var n := |vouchers| - 1;
      if v != vouchers[n].value {
        EnqueueAllCollections(rec, vouchers[..n], v);
        if v !in rec.collections {
          var i :| 0 <= i < n && vouchers[..n][i].value == v;
          assert vouchers[i].value == v;
        }
      } else {
        assert vouchers[n].value == v;
      }
    }
  }

  lemma VouchersConserve(cfg: Config, env: R.LoadEnv, rec: R.Storage, vouchers: seq<R.Voucher>)
    requires RecyclersOk(cfg, rec) && R.FreshVouchers(env, rec, vouchers) && VoucherTotal(cfg, vouchers).Some?
    ensures var t := R.EnqueueAll(rec, vouchers);
      RecyclersOk(cfg, t) && RI.Value(cfg.price, t) == RI.Value(cfg.price, rec) + VoucherTotal(cfg, vouchers).value
  {
    RL.EnqueueAllInv(env, rec, vouchers);
    RL.EnqueueAllValue(cfg.price, rec, vouchers);
    VoucherTotalIsValue(cfg, vouchers);
    forall v | v in R.EnqueueAll(rec, vouchers).collections
      ensures v in cfg.price
    {
      EnqueueAllCollections(rec, vouchers, v);
    }
  }

  lemma Commute(a: int, b: int)
    ensures a * b == b * a
  {
  }

  lemma VouchersBalance(cfg: Config, env: R.LoadEnv, s: State, external: nat, vouchers: seq<R.Voucher>)
    requires RecyclersOk(cfg, s.rec) && R.FreshVouchers(env, s.rec, vouchers) && VoucherTotal(cfg, vouchers).Some?
    requires Balanced(cfg, s, external + VoucherTotal(cfg, vouchers).value)
    ensures var t := s.(rec := R.EnqueueAll(s.rec, vouchers)); Balanced(cfg, t, external) && RecyclersOk(cfg, t.rec)
  {
    VouchersConserve(cfg, env, s.rec, vouchers);
  }

  lemma MixedConserves(cfg: Config, env: Env, s: State, input: Input, proofs: seq<R.Proof>, fee: FeeMode, to: Account,
                       external: nat, vouchers: seq<R.Voucher>)
    requires RecyclersOk(cfg, s.rec) && Balanced(cfg, s, Pending(cfg, fee))
    requires DispatchMixed(cfg, env, s, input, proofs, fee, to, external, vouchers).Some?
    ensures var t := DispatchMixed(cfg, env, s, input, proofs, fee, to, external, vouchers).value;
      && Balanced(cfg, t, 0) && RecyclersOk(cfg, t.rec)
      && t == s.(rec := t.rec, held := t.held, flow := t.flow) && t.held <= s.held
  {
    ProcessInputConserves(cfg, s, input, proofs, fee);
    var t := ProcessInput(cfg, s, input, proofs, fee).value;
    Commute(cfg.price[input.value], |input.aliases|);
    VouchersBalance(cfg, env.load, t, external, vouchers);
    PayRecipientConserves(cfg, env, t.(rec := R.EnqueueAll(t.rec, vouchers)), to, external, fee);
  }

  // ---------------------------------------------------------------------------------------------
  // Into several coins
  // ---------------------------------------------------------------------------------------------

  /** After the aliases and the fee are dealt with, exactly the outputs are still owed. */
  lemma ProcessForCoinsConserves(cfg: Config, env: Env, s: State, input: Input, proofs: seq<R.Proof>, fee: FeeMode, maxFee: nat)
    requires RecyclersOk(cfg, s.rec) && s.held <= cfg.maxBalance && Balanced(cfg, s, Pending(cfg, fee))
    requires fee.Prepaid? ==> maxFee == 0
    requires maxFee <= InputWorth(cfg, input)
    requires ProcessForCoins(cfg, env, s, input, proofs, fee, maxFee).Some?
    ensures var t := ProcessForCoins(cfg, env, s, input, proofs, fee, maxFee).value;
      && Balanced(cfg, t, InputWorth(cfg, input) - maxFee) && RecyclersOk(cfg, t.rec)
      && t == s.(rec := t.rec, held := t.held, flow := t.flow, destroyed := t.destroyed) && t.held <= s.held
  {
    if fee.Prepaid? {
      UnloadConserves(cfg, s, input, proofs);
    } else {
      var t := if |input.aliases| == 1 then s else Unload(cfg, s, Rest(input), proofs[1..]).value;
      PremarkedUnloads(cfg, s, input, proofs, fee, t);
      FeeFromOutput(cfg, env, t, InputWorth(cfg, input), maxFee);
    }
  }

  /** After the remaining aliases are taken too, the worth of all of them is set aside. */
  lemma PremarkedUnloads(cfg: Config, s: State, input: Input, proofs: seq<R.Proof>, fee: FeeMode, t: State)
    requires RecyclersOk(cfg, s.rec) && Balanced(cfg, s, Pending(cfg, fee))
    requires fee.FromOutput? && fee.value == input.value && input.aliases != [] && proofs != []
    requires if |input.aliases| == 1 then t == s else Unload(cfg, s, Rest(input), proofs[1..]) == Some(t)
    ensures RecyclersOk(cfg, t.rec) && t == s.(rec := t.rec) && Balanced(cfg, t, InputWorth(cfg, input))
  {
    RestWorth(cfg, input);
    if |input.aliases| > 1 {
      UnloadConserves(cfg, s, Rest(input), proofs[1..]);
    }
  }

  /** The first alias is worth one coin, the rest the rest. */
  lemma RestWorth(cfg: Config, input: Input)
    requires input.aliases != []
    ensures InputWorth(cfg, input) == InputWorth(cfg, Rest(input)) + RI.Price(cfg.price, input.value)
    ensures |input.aliases| == 1 ==> InputWorth(cfg, Rest(input)) == 0
  {
    OneLess(|input.aliases|, RI.Price(cfg.price, input.value));
  }

  lemma FeeFromOutput(cfg: Config, env: Env, s: State, worth: nat, maxFee: nat)
    requires RI.Inv(s.rec) && s.held <= cfg.maxBalance && Balanced(cfg, s, worth) && maxFee <= worth
    requires DeductFee(env, s, maxFee).Some?
    ensures var p := DeductFee(env, s, maxFee).value;
      var t := if p.1 > 0 then Destroy(cfg, p.0, p.1) else p.0;
      Balanced(cfg, t, worth - maxFee) && t == s.(held := t.held, flow := t.flow, destroyed := t.destroyed) && t.held <= s.held
  {
    PendingCovered(cfg, s, worth);
    var p := DeductFee(env, s, maxFee).value;
    DestroyExact(cfg, p.0, p.1);
  }

  lemma IntoCoinsConserves(cfg: Config, env: Env, s: State, input: Input, proofs: seq<R.Proof>, fee: FeeMode,
                           into: seq<Group>, maxFee: nat)
    requires ConfigOk(cfg) && RecyclersOk(cfg, s.rec) && CoinsOk(cfg, s.coins) && s.held <= cfg.maxBalance
    requires input.value in cfg.price && Amount(cfg.denom, cfg.denom.minExp) > 0
    requires maxFee / Amount(cfg.denom, cfg.denom.minExp) <= U32_MAX
    requires Balanced(cfg, s, Pending(cfg, fee))
    requires DispatchIntoCoins(cfg, env, s, input, proofs, fee, into, maxFee).Some?
    ensures var t := DispatchIntoCoins(cfg, env, s, input, proofs, fee, into, maxFee).value;
      && Balanced(cfg, t, 0) && RecyclersOk(cfg, t.rec) && CoinsOk(cfg, t.coins)
      && t == s.(coins := t.coins, rec := t.rec, held := t.held, flow := t.flow, destroyed := t.destroyed)
      && t.held <= s.held && s.coins.Keys <= t.coins.Keys
  {
    UnitBalanceIff(cfg.denom, input.value, |input.aliases|, maxFee);
    var units := ExpectedUnits(cfg.denom, input.value, |input.aliases|, maxFee).value;
    var a := Amount(cfg.denom, cfg.denom.minExp);
    ProductNonNegative(units, a);
    assert units * a + maxFee == InputWorth(cfg, input);
    ProcessForCoinsConserves(cfg, env, s, input, proofs, fee, maxFee);
    MintWorth(cfg, s.coins, into, 1, units);
    MintOk(cfg, s.coins, into, 1, units);
  }

  // ---------------------------------------------------------------------------------------------
  // Signed unloads of several recyclers
  // ---------------------------------------------------------------------------------------------

  ghost function InputsWorth(cfg: Config, inputs: seq<Input>): nat
    decreases |inputs|
  {
    if inputs == [] then 0 else InputsWorth(cfg, inputs[..|inputs| - 1]) + InputWorth(cfg, inputs[|inputs| - 1])
  }

  lemma {:induction false} ProcessInputsConserves(cfg: Config, s: State, inputs: seq<Input>, proofs: seq<R.Proof>)
    requires RecyclersOk(cfg, s.rec) && ProcessInputs(cfg, s, inputs, proofs).Some?
    ensures var t := ProcessInputs(cfg, s, inputs, proofs).value;
      && RecyclersOk(cfg, t.rec) && t == s.(rec := t.rec)
      && RI.Value(cfg.price, t.rec) == RI.Value(cfg.price, s.rec) - InputsWorth(cfg, inputs)
    decreases |inputs|
  {
    if inputs != [] {
      var n := |inputs| - 1;
      var own := |inputs[n].aliases|;
      ProcessInputsConserves(cfg, s, inputs[..n], proofs[..|proofs| - own]);
      var t := ProcessInputs(cfg, s, inputs[..n], proofs[..|proofs| - own]).value;
      UnloadConserves(cfg, t, inputs[n], proofs[|proofs| - own..]);
    }
  }

  /** The running total is exact when the mathematical one fits: nothing saturates on the way. */
  lemma {:induction false} SignedTotalExact(cfg: Config, inputs: seq<Input>)
    requires InputsWorth(cfg, inputs) <= cfg.maxBalance && SignedTotal(cfg, inputs).Some?
    ensures SignedTotal(cfg, inputs).value == InputsWorth(cfg, inputs)
    decreases |inputs|
  {
    if inputs != [] {
      var n := |inputs| - 1;
      SignedTotalExact(cfg, inputs[..n]);
      SatMulExact(cfg.price[inputs[n].value], |inputs[n].aliases|, cfg.maxBalance);
    }
  }

  lemma SignedConserves(cfg: Config, env: Env, s: State, inputs: seq<Input>, proofs: seq<R.Proof>, to: Account)
    requires RecyclersOk(cfg, s.rec) && s.held <= cfg.maxBalance && Balanced(cfg, s, 0)
    requires DispatchSigned(cfg, env, s, inputs, proofs, to).Some?
    ensures var t := DispatchSigned(cfg, env, s, inputs, proofs, to).value;
      && Balanced(cfg, t, 0) && RecyclersOk(cfg, t.rec)
      && t == s.(rec := t.rec, held := t.held, flow := t.flow) && t.held <= s.held
  {
    ProcessInputsConserves(cfg, s, inputs, proofs);
    var t := ProcessInputs(cfg, s, inputs, proofs).value;
    PendingCovered(cfg, t, InputsWorth(cfg, inputs));
    SignedTotalExact(cfg, inputs);
  }

  // ---------------------------------------------------------------------------------------------
  // Clean-up
  // ---------------------------------------------------------------------------------------------

  lemma CleanRecyclers(cfg: Config, rec: R.Storage, v: int)
    requires RecyclersOk(cfg, rec) && RL.Cleanable(rec, v)
    ensures RecyclersOk(cfg, R.Clean(rec, v))
    ensures RI.Value(cfg.price, R.Clean(rec, v)) == RI.Value(cfg.price, rec) - R.RemainingCoins(rec, v) * RI.Price(cfg.price, v)
  {
    RL.CleanInv(rec, v);
    RL.CleanValue(cfg.price, rec, v);
  }

  lemma CleanConserves(cfg: Config, env: Env, s: State, v: int)
    requires RecyclersOk(cfg, s.rec) && Balanced(cfg, s, 0) && DispatchClean(cfg, env, s, v).Some?
    ensures var t := DispatchClean(cfg, env, s, v).value;
      && Balanced(cfg, t, 0) && RecyclersOk(cfg, t.rec)
      && t == s.(rec := t.rec, destroyed := t.destroyed)
  {
    CleanRecyclers(cfg, s.rec, v);
    Commute(cfg.price[v], R.RemainingCoins(s.rec, v));
  }

  lemma DustConserves(cfg: Config, s: State, k: R.RingKey, batch: set<R.Alias>)
    requires RecyclersOk(cfg, s.rec) && Balanced(cfg, s, 0) && k in s.rec.dusting
    ensures var t := s.(rec := R.CleanDust(s.rec, k, batch)); Balanced(cfg, t, 0) && RecyclersOk(cfg, t.rec)
  {
    RL.CleanDustInv(s.rec, k, batch);
    RL.CleanDustValue(cfg.price, s.rec, k, batch);
  }
}
