/**
  The coinage pallet as it runs: coins, locks, the destroyed total and the held balance updated in
  place over a `RecyclerManager`, proved against `Coinage`. Dispatch may leave partial writes when it
  fails; the transaction restores the storage of before the dispatch.
*/
module CoinagePallet {
  import opened Prelude
  import opened Denomination
  import opened SplitValidation
  import opened CoinLedger
  import opened Coinage
  import CV = CoinageValidation
  import CU = CoinageUnload
  import CR = CoinageRuns
  import R = Recyclers
  import RI = RecyclerInvariant
  import RL = RecyclerLaws
  import RM = RecyclerManager

  /** The call answers as specified, and on success the storage is the specified one. */
  ghost predicate Follows(after: State, ok: bool, spec: Option<State>) {
    (ok <==> spec.Some?) && (ok ==> after == spec.value)
  }

  class Pallet {
    const cfg: Config
    const recyclers: RM.Manager
    var now: nat
    var coins: Coins
    var locked: map<Account, Lock>
    var destroyed: nat
    var held: nat
    var flow: Flow

    constructor (cfg: Config, now: nat)
      ensures this.cfg == cfg && fresh(recyclers) && View() == CR.Genesis(now)
    {
      this.cfg := cfg;
      this.now := now;
      coins, locked, destroyed, held, flow := map[], map[], 0, 0, Flow(0, map[], 0);
      recyclers := new RM.Manager();
    }

    ghost function View(): State
      reads this, recyclers
    {
      State(now, coins, locked, destroyed, held, recyclers.View(), flow)
    }

    // -------------------------------------------------------------------------------------------
    // Held balance
    // -------------------------------------------------------------------------------------------

    method TransferExternalAsset(env: Env, to: Account, amount: nat) returns (ok: bool)
      modifies this`held, this`flow
      ensures Follows(View(), ok, PayOut(env, old(View()), to, amount))
    {
      if amount == 0 {
        return true;
      }
      if !env.payOk || held < amount {
        return false;
      }
      held := held - amount;
      flow := flow.(received := flow.received[to := (if to in flow.received then flow.received[to] else 0) + amount]);
      ok := true;
    }

    /** The transfer to the fee destination. */
    method TransferFee(fee: nat)
      requires fee <= held
      modifies this`held, this`flow
      ensures View() == PayFee(old(View()), fee)
    {
      held := held - fee;
      flow := flow.(fees := flow.fees + fee);
    }

    method DeductAndTransferFee(env: Env, total: nat) returns (r: Option<nat>)
      modifies this`held, this`flow
      ensures r.Some? <==> DeductFee(env, old(View()), total).Some?
      ensures r.Some? ==> (View(), r.value) == DeductFee(env, old(View()), total).value
    {
      if env.fee.None? || total < env.fee.value {
        return None;
      }
      if !env.feeOk || held < env.fee.value {
        return None;
      }
      TransferFee(env.fee.value);
      r := Some(total - env.fee.value);
    }

    method TransferAndHold(env: Env, amount: nat) returns (ok: bool)
      modifies this`held, this`flow
      ensures Follows(View(), ok, TakeIn(cfg, env, old(View()), amount))
    {
      if !env.payOk || held + amount > cfg.maxBalance {
        return false;
      }
      held := held + amount;
      flow := flow.(deposits := flow.deposits + amount);
      ok := true;
    }

    method PayOutput(env: Env, to: Account, total: nat, fee: FeeMode) returns (ok: bool)
      modifies this`held, this`flow
      ensures Follows(View(), ok, PayRecipient(env, old(View()), to, total, fee))
    {
      if fee.Prepaid? {
        ok := TransferExternalAsset(env, to, total);
        return;
      }
      var rest := DeductAndTransferFee(env, total);
      if rest.None? {
        return false;
      }
      ok := TransferExternalAsset(env, to, rest.value);
    }

    // -------------------------------------------------------------------------------------------
    // Calls made with a coin
    // -------------------------------------------------------------------------------------------

    /** Insert one coin per destination, group by group. */
    method MintGroups(into: seq<Group>, age: nat)
      modifies this`coins
      ensures coins == Mint(old(coins), Outputs(into), age)
    {
      var i := 0;
      while i < |into|
        invariant 0 <= i <= |into|
        invariant coins == Mint(old(coins), Outputs(into[..i]), age)
      {
        ghost var before := coins;
        var j := 0;
        while j < |into[i].dests|
          invariant 0 <= j <= |into[i].dests|
          invariant coins == Mint(before, GroupOutputs(into[i])[..j], age)
        {
          coins := coins[into[i].dests[j] := Coin(into[i].value, age)];
          MintOneMore(before, GroupOutputs(into[i]), j, age);
          j := j + 1;
        }
        MintGroup(old(coins), into, i, age);
        i := i + 1;
      }
      assert into[..i] == into;
    }

    method SplitCoin(coin: Coin, into: seq<Group>) returns (ok: bool)
      modifies this`coins
      ensures Follows(View(), ok, DispatchSplit(old(View()), coin, into))
    {
      MintGroups(into, SatAdd(coin.age, 1, U16_MAX));
      ok := true;
    }

    method TransferCoin(coin: Coin, to: Account) returns (ok: bool)
      modifies this`coins
      ensures Follows(View(), ok, DispatchTransfer(old(View()), coin, to))
    {
      coins := coins[to := Coin(coin.value, SatAdd(coin.age, 1, U16_MAX))];
      ok := true;
    }

    method LoadRecyclerWithCoin(env: Env, coin: Coin, member: R.Member) returns (ok: bool)
      modifies recyclers
      ensures Follows(View(), ok, DispatchLoadCoin(env, old(View()), coin, member))
    {
      var r := recyclers.Load(env.load, coin.value, member);
      ok := r.Ok?;
    }

    method PayForUnloadToken(env: Env, coin: Coin) returns (ok: bool)
      modifies this`held, this`flow, this`destroyed
      ensures Follows(View(), ok, DispatchPayToken(cfg, env, old(View()), coin))
    {
      if coin.value !in cfg.price {
        return false;
      }
      var amount := cfg.price[coin.value];
      if env.fee.None? || amount < env.fee.value {
        return false;
      }
      if held < env.fee.value || !env.feeOk {
        return false;
      }
      TransferFee(env.fee.value);
      if !env.tokenMemberOk {
        return false;
      }
      destroyed := SatAdd(destroyed, amount - env.fee.value, cfg.maxBalance);
      ok := true;
    }

    method OffboardCoin(env: Env, coin: Coin, to: Account) returns (ok: bool)
      modifies this`held, this`flow
      ensures Follows(View(), ok, DispatchOffboard(cfg, env, old(View()), coin, to))
    {
      if coin.value !in cfg.price || coin.age != 0 {
        return false;
      }
      ok := TransferExternalAsset(env, to, cfg.price[coin.value]);
    }

    // -------------------------------------------------------------------------------------------
    // Loading external assets
    // -------------------------------------------------------------------------------------------

    method LoadExternalAsset(env: Env, v: int, member: R.Member) returns (ok: bool)
      modifies this`held, this`flow, recyclers
      ensures Follows(View(), ok, LoadOne(cfg, env, old(View()), v, member))
    {
      if v !in cfg.price {
        return false;
      }
      ok := TransferAndHold(env, cfg.price[v]);
      if !ok {
        return;
      }
      var r := recyclers.Load(env.load, v, member);
      ok := r.Ok?;
    }

    method LoadUnpaidBatch(env: Env, items: seq<R.Voucher>) returns (ok: bool)
      modifies this`held, this`flow, recyclers
      ensures Follows(View(), ok, DispatchLoadUnpaid(cfg, env, old(View()), items))
    {
      var k := 0;
      while k < |items|
        invariant 0 <= k <= |items|
        invariant DispatchLoadUnpaid(cfg, env, old(View()), items[..k]) == Some(View())
        invariant unchanged(`now, `coins, `locked, `destroyed)
      {
        UnpaidPrefix(cfg, env, old(View()), items, k);
        ok := LoadExternalAsset(env, items[k].value, items[k].member);
        if !ok {
          UnpaidStops(cfg, env, old(View()), items, k + 1);
          return;
        }
        k := k + 1;
      }
      assert items[..k] == items;
      ok := true;
    }

    // -------------------------------------------------------------------------------------------
    // Unloading
    // -------------------------------------------------------------------------------------------

    method UnloadInput(input: Input, proofs: seq<R.Proof>) returns (ok: bool)
      modifies recyclers
      ensures Follows(View(), ok, Unload(cfg, old(View()), input, proofs))
    {
      ok := recyclers.Unload(now, cfg.expiry, input.value, input.index, input.revision, input.aliases, proofs);
    }

    /** The extension must have marked the first alias in the fee ring. */
    method CheckPremarked(input: Input, fee: FeeMode) returns (ok: bool)
      requires fee.FromOutput?
      ensures ok <==> Premarked(View(), input, fee)
    {
      if input.value != fee.value || input.index != fee.index || input.aliases == [] {
        return false;
      }
      var key := R.RingKey(fee.value, fee.index);
      ok := key in recyclers.marks && input.aliases[0] in recyclers.marks[key];
    }

    /** The recyclers owe one coin less per alias, but for the one already marked when the fee comes from the output. */
    method ProcessUnloadInput(input: Input, proofs: seq<R.Proof>, fee: FeeMode) returns (ok: bool)
      modifies recyclers
      ensures Follows(View(), ok, ProcessInput(cfg, old(View()), input, proofs, fee))
      ensures ok ==> RM.OwesMore(old(recyclers.View()), recyclers.View(), input.value, (if fee.FromOutput? then 1 else 0) - |input.aliases|)
    {
      if ProcessInput(cfg, View(), input, proofs, fee).Some? {
        ProcessOwes(cfg, View(), input, proofs, fee);
      }
      if fee.Prepaid? {
        ok := UnloadInput(input, proofs);
        return;
      }
      ok := CheckPremarked(input, fee);
      if !ok || |proofs| != |input.aliases| {
        return false;
      }
      if |input.aliases| == 1 {
        return true;
      }
      ok := UnloadInput(Rest(input), proofs[1..]);
    }

    method UnloadToCoin(input: Input, proofs: seq<R.Proof>, fee: FeeMode, to: Account) returns (ok: bool)
      modifies this`coins, recyclers
      ensures Follows(View(), ok, DispatchIntoCoin(cfg, old(View()), input, proofs, fee, to))
    {
      if fee != Prepaid || input.aliases == [] || !IsPowerOfTwo(|input.aliases|) {
        return false;
      }
      ok := UnloadInput(input, proofs);
      if !ok {
        return;
      }
      var value := input.value + TrailingZeros(|input.aliases|);
      if value > cfg.denom.maxExp {
        return false;
      }
      coins := coins[to := Coin(value, 0)];
    }

    method UnloadToAsset(env: Env, input: Input, proofs: seq<R.Proof>, fee: FeeMode, to: Account) returns (ok: bool)
      modifies this`held, this`flow, recyclers
      ensures Follows(View(), ok, DispatchIntoAsset(cfg, env, old(View()), input, proofs, fee, to))
    {
      if input.value !in cfg.price {
        return false;
      }
      var total := SatMul(cfg.price[input.value], |input.aliases|, cfg.maxBalance);
      ok := ProcessUnloadInput(input, proofs, fee);
      if !ok {
        return;
      }
      ok := PayOutput(env, to, total, fee);
    }

    method UnloadToMixed(env: Env, input: Input, proofs: seq<R.Proof>, fee: FeeMode, to: Account, external: nat, vouchers: seq<R.Voucher>)
      returns (ok: bool)
      modifies this`held, this`flow, recyclers
      ensures Follows(View(), ok, DispatchMixed(cfg, env, old(View()), input, proofs, fee, to, external, vouchers))
      ensures ok ==> input.value in cfg.price && VoucherTotal(cfg, vouchers) == Some(cfg.price[input.value] * |input.aliases| - external)
    {
      var s := Capture();
      ok := CV.ValidateMixedOutput(cfg, env, s, input, external, vouchers);
      if !ok {
        return;
      }
      if fee.FromOutput? && (env.fee.None? || external < env.fee.value) {
        return false;
      }
      ok := ProcessUnloadInput(input, proofs, fee);
      if !ok {
        return;
      }
      ok := recyclers.LoadBatchGrouped(env.load, vouchers);
      if !ok {
        return;
      }
      ok := PayOutput(env, to, external, fee);
    }

    method ProcessInputForCoins(env: Env, input: Input, proofs: seq<R.Proof>, fee: FeeMode, maxFee: nat) returns (ok: bool)
      modifies this`held, this`flow, this`destroyed, recyclers
      ensures Follows(View(), ok, ProcessForCoins(cfg, env, old(View()), input, proofs, fee, maxFee))
    {
      if fee.Prepaid? {
        ok := UnloadInput(input, proofs);
        return;
      }
      ok := CheckPremarked(input, fee);
      if !ok || proofs == [] {
        return false;
      }
      if |input.aliases| != 1 {
        ok := UnloadInput(Rest(input), proofs[1..]);
        if !ok {
          return;
        }
      }
      var change := DeductAndTransferFee(env, maxFee);
      if change.None? {
        return false;
      }
      if change.value > 0 {
        destroyed := SatAdd(destroyed, change.value, cfg.maxBalance);
      }
    }

    /** What is minted, and the fee cap, are worth what was unloaded when the fee fits its word. */
    method UnloadToCoins(env: Env, input: Input, proofs: seq<R.Proof>, fee: FeeMode, into: seq<Group>, maxFee: nat) returns (ok: bool)
      requires ConfigOk(cfg) && Amount(cfg.denom, cfg.denom.minExp) > 0
      modifies this, recyclers
      ensures Follows(View(), ok, DispatchIntoCoins(cfg, env, old(View()), input, proofs, fee, into, maxFee))
      ensures unchanged(`now, `locked)
      ensures ok && input.value in cfg.price ==>
        (AssetsBalance(cfg.denom, input.value, |input.aliases|, maxFee, TotalUnits(cfg.denom, into))
         <==> maxFee / Amount(cfg.denom, cfg.denom.minExp) <= U32_MAX)
    {
      if (fee == Prepaid && maxFee != 0) || input.aliases == [] {
        return false;
      }
      var units := ExpectedUnits(cfg.denom, input.value, |input.aliases|, maxFee);
      if units.Err? {
        return false;
      }
      var split := ValidateSplitParams(cfg.denom, cfg.maxSplit, coins.Keys, units.value, into);
      if split.Err? {
        return false;
      }
      if input.value in cfg.price {
        UnitBalanceIff(cfg.denom, input.value, |input.aliases|, maxFee);
      }
      ok := ProcessInputForCoins(env, input, proofs, fee, maxFee);
      if !ok {
        return;
      }
      MintGroups(into, 1);
    }

    /** The value loop of the non-anonymous unload. */
    method SumInputs(inputs: seq<Input>) returns (r: Option<nat>)
      ensures r == SignedTotal(cfg, inputs)
    {
      var total := 0;
      var k := 0;
      while k < |inputs|
        invariant 0 <= k <= |inputs|
        invariant SignedTotal(cfg, inputs[..k]) == Some(total)
      {
        SignedTotalPrefix(cfg, inputs, k);
        if inputs[k].value !in cfg.price || inputs[k].aliases == [] {
          SignedTotalStops(cfg, inputs, k + 1);
          return None;
        }
        var amount := SatMul(cfg.price[inputs[k].value], |inputs[k].aliases|, cfg.maxBalance);
        total := SatAdd(total, amount, cfg.maxBalance);
        k := k + 1;
      }
      assert inputs[..k] == inputs;
      r := Some(total);
    }

    /** One turn of `process_unload_inputs`: the next input takes as many proofs as it has aliases. */
    method ProcessNextInput(ghost s: State, inputs: seq<Input>, proofs: seq<R.Proof>, k: nat, offset: nat) returns (ok: bool)
      requires k < |inputs| && Processed(cfg, s, inputs, proofs, k, offset, View())
      modifies recyclers
      ensures !ok ==> ProcessInputs(cfg, s, inputs, proofs).None?
      ensures ok ==> Processed(cfg, s, inputs, proofs, k + 1, offset + |inputs[k].aliases|, View())
    {
      AliasCountStep(inputs, k);
      var own := |inputs[k].aliases|;
      if |proofs| - offset < own {
        ProcessFails(cfg, s, inputs, proofs, k + 1);
        return false;
      }
      ProcessStep(cfg, s, inputs, proofs, k, offset, View());
      ok := UnloadInput(inputs[k], proofs[offset..offset + own]);
      if !ok {
        ProcessFails(cfg, s, inputs, proofs, k + 1);
      }
    }

    /** `process_unload_inputs`: all inputs in order, and no proof may be left over. */
    method ProcessUnloadInputs(inputs: seq<Input>, proofs: seq<R.Proof>) returns (ok: bool)
      modifies recyclers
      ensures Follows(View(), ok, ProcessInputs(cfg, old(View()), inputs, proofs))
    {
      ghost var s := View();
      var offset := 0;
      var k := 0;
      while k < |inputs|
        invariant 0 <= k && 0 <= offset && Processed(cfg, s, inputs, proofs, k, offset, View())
      {
        ok := ProcessNextInput(s, inputs, proofs, k, offset);
        if !ok {
          return;
        }
        offset := offset + |inputs[k].aliases|;
        k := k + 1;
      }
      ok := offset == |proofs|;
      ProcessEnds(cfg, s, inputs, proofs, offset, View());
    }

    method UnloadNonAnonymous(env: Env, inputs: seq<Input>, proofs: seq<R.Proof>, to: Account) returns (ok: bool)
      modifies this`held, this`flow, recyclers
      ensures Follows(View(), ok, DispatchSigned(cfg, env, old(View()), inputs, proofs, to))
    {
      if inputs == [] {
        return false;
      }
      var total := SumInputs(inputs);
      if total.None? {
        return false;
      }
      ok := ProcessUnloadInputs(inputs, proofs);
      if !ok || !env.feeOk {
        return false;
      }
      ok := TransferExternalAsset(env, to, total.value);
    }

    // -------------------------------------------------------------------------------------------
    // Maintenance
    // -------------------------------------------------------------------------------------------

    /** What the recyclers no longer owe is destroyed, to the unit. */
    method CleanRecyclerRing(env: Env, v: int) returns (ok: bool)
      modifies this`destroyed, recyclers
      ensures Follows(View(), ok, DispatchClean(cfg, env, old(View()), v))
      ensures ok && RI.Inv(old(recyclers.View())) ==> SameOwedOrDestroyed(cfg, old(View()), View())
    {
      CleanDestroys(cfg, env, View(), v);
      var remaining := recyclers.CleanUnchecked(v, env.removeOk);
      if remaining.None? || v !in cfg.price {
        return false;
      }
      ok := AddDestroyed(cfg.price[v], remaining.value);
    }

    /** The checked product and sum of the clean-up. */
    method AddDestroyed(amount: nat, count: nat) returns (ok: bool)
      modifies this`destroyed
      ensures ok <==> amount * count <= cfg.maxBalance && old(destroyed) + amount * count <= cfg.maxBalance
      ensures destroyed == if ok then old(destroyed) + amount * count else old(destroyed)
    {
      var lost := amount * count;
      if lost > cfg.maxBalance || destroyed + lost > cfg.maxBalance {
        return false;
      }
      destroyed := destroyed + lost;
      ok := true;
    }

    method CleanRecyclerDustBatch(k: R.RingKey, batch: set<R.Alias>) returns (ok: bool)
      modifies recyclers
      ensures Follows(View(), ok, Some(old(View()).(rec := R.CleanDust(old(View()).rec, k, batch))))
    {
      recyclers.CleanDustUnchecked(k, batch);
      ok := true;
    }

    // -------------------------------------------------------------------------------------------
    // The transaction
    // -------------------------------------------------------------------------------------------

    method CoinCall(env: Env, call: Call, owner: Account, coin: Coin) returns (ok: bool)
      requires Amount(cfg.denom, cfg.denom.minExp) > 0
      modifies this, recyclers
      ensures Follows(View(), ok, Dispatch(cfg, env, old(View()), call, CoinOrigin(owner, coin)))
    {
      match call {
        case Split(into) => ok := SplitCoin(coin, into);
        case Transfer(to) => ok := TransferCoin(coin, to);
        case LoadCoin(member) => ok := LoadRecyclerWithCoin(env, coin, member);
        case PayTokenWithCoin => ok := PayForUnloadToken(env, coin);
        case Offboard(to) => ok := OffboardCoin(env, coin, to);
        case _ => ok := false;
      }
    }

    method TokenCall(env: Env, call: Call, proofs: seq<R.Proof>, fee: FeeMode) returns (ok: bool)
      requires ConfigOk(cfg) && Amount(cfg.denom, cfg.denom.minExp) > 0
      modifies this, recyclers
      ensures Follows(View(), ok, Dispatch(cfg, env, old(View()), call, UnloadToken(proofs, fee)))
    {
      match call {
        case UnloadIntoCoin(input, to) => ok := UnloadToCoin(input, proofs, fee, to);
        case UnloadIntoAsset(input, to) => ok := UnloadToAsset(env, input, proofs, fee, to);
        case UnloadMixed(input, to, external, vouchers) => ok := UnloadToMixed(env, input, proofs, fee, to, external, vouchers);
        case UnloadIntoCoins(input, into, maxFee) => ok := UnloadToCoins(env, input, proofs, fee, into, maxFee);
        case _ => ok := false;
      }
    }

    method OtherCall(env: Env, call: Call, origin: Origin) returns (ok: bool)
      requires Amount(cfg.denom, cfg.denom.minExp) > 0 && !origin.CoinOrigin? && !origin.UnloadToken?
      modifies this, recyclers
      ensures Follows(View(), ok, Dispatch(cfg, env, old(View()), call, origin))
    {
      match call {
        case LoadExternal(v, member) =>
          if origin.Signed? && env.ownsKey {
            ok := LoadExternalAsset(env, v, member);
          } else {
            ok := false;
          }
        case UnloadSigned(inputs, proofs, to) =>
          if origin.Signed? {
            ok := UnloadNonAnonymous(env, inputs, proofs, to);
          } else {
            ok := false;
          }
        case LoadUnpaid(items) =>
          if origin.InfallibleUnpaid? {
            ok := LoadUnpaidBatch(env, items);
          } else {
            ok := false;
          }
        case CleanRecycler(v) =>
          if origin.Authorized? {
            ok := CleanRecyclerRing(env, v);
          } else {
            ok := false;
          }
        case CleanRecyclerDust(k, batch) =>
          if origin.Authorized? {
            ok := CleanRecyclerDustBatch(k, batch);
          } else {
            ok := false;
          }
        case _ =>
          ok := false;
      }
    }

    method DispatchCall(env: Env, call: Call, origin: Origin) returns (ok: bool)
      requires ConfigOk(cfg) && Amount(cfg.denom, cfg.denom.minExp) > 0
      modifies this, recyclers
      ensures Follows(View(), ok, Dispatch(cfg, env, old(View()), call, origin))
    {
      match origin {
        case CoinOrigin(owner, coin) => ok := CoinCall(env, call, owner, coin);
        case UnloadToken(proofs, fee) => ok := TokenCall(env, call, proofs, fee);
        case _ => ok := OtherCall(env, call, origin);
      }
    }

    /** `prepare`. */
    method PrepareTransaction(origin: Origin)
      modifies this`coins, recyclers
      ensures View() == Prepare(old(View()), origin)
    {
      match origin {
        case CoinOrigin(owner, _) =>
          coins := coins - {owner};
        case UnloadToken(proofs, fee) =>
          if fee.FromOutput? && proofs != [] {
            recyclers.MarkAliasUnloaded(R.RingKey(fee.value, fee.index), R.Alias(proofs[0].member));
          }
        case _ =>
      }
    }

    /** `post_dispatch_details`. */
    method PostDispatch(origin: Origin, ok: bool)
      modifies this`coins, this`locked, this`destroyed
      ensures View() == if ok then PostSuccess(old(View()), origin) else PostFailure(cfg, old(View()), origin)
    {
      match origin {
        case CoinOrigin(owner, coin) =>
          if ok {
            locked := locked - {owner};
          } else {
            var retries: nat := if owner in locked then SatAdd(locked[owner].retries, 1, 255) else 0;
            var until := SatAdd(now, SatMul(SatPow2(retries), cfg.lockBase, U64_MAX), U64_MAX);
            coins := coins[owner := coin];
            locked := locked[owner := Lock(retries, until)];
          }
        case UnloadToken(_, fee) =>
          if fee.FromOutput? && !ok && fee.value in cfg.price {
            destroyed := SatAdd(destroyed, cfg.price[fee.value], cfg.maxBalance);
          }
        case _ =>
      }
    }

    /** Put back every storage item. */
    method Rollback(s: State)
      modifies this, recyclers
      ensures View() == s
    {
      now, coins, locked, destroyed, held, flow := s.now, s.coins, s.locked, s.destroyed, s.held, s.flow;
      recyclers.Restore(s.rec);
    }

    method Capture() returns (s: State)
      ensures s == View()
    {
      var rec := recyclers.Snapshot();
      s := State(now, coins, locked, destroyed, held, rec, flow);
    }

    /** `prepare`, dispatch with rollback on failure, and `post_dispatch`. */
    method RunPhases(env: Env, call: Call, origin: Origin)
      requires ConfigOk(cfg) && Amount(cfg.denom, cfg.denom.minExp) > 0
      modifies this, recyclers
      ensures View() == Execute(cfg, env, old(View()), call, origin)
    {
      var before := Capture();
      PrepareTransaction(origin);
      var prepared := Capture();
      var ok := DispatchCall(env, call, origin);
      if ok {
        PostDispatch(origin, true);
      } else if origin.InfallibleUnpaid? {
        Rollback(before);
      } else {
        Rollback(prepared);
        PostDispatch(origin, false);
      }
    }

    /** One transaction, accepted or not, keeps the invariant. */
    method SubmitTransaction(env: Env, ext: Extension, call: Call)
      requires ConfigOk(cfg) && Amount(cfg.denom, cfg.denom.minExp) > 0
      modifies this, recyclers
      ensures View() == Transact(cfg, env, old(View()), ext, call)
      ensures CR.Inv(cfg, old(View())) ==> CR.Inv(cfg, View())
    {
      ValidateAndRun(env, ext, call);
      CR.TransactKeepsInv(cfg, env, old(View()), ext, call);
    }

    /** Validation, then the other three phases. */
    method ValidateAndRun(env: Env, ext: Extension, call: Call)
      requires ConfigOk(cfg) && Amount(cfg.denom, cfg.denom.minExp) > 0
      modifies this, recyclers
      ensures View() == Transact(cfg, env, old(View()), ext, call)
    {
      var before := Capture();
      if !Decodes(cfg, call) {
        return;
      }
      var origin := CV.ValidateTransaction(cfg, env, before, ext, call);
      if origin.None? {
        return;
      }
      RunPhases(env, call, origin.value);
    }

    /** Any run of transactions, member-service work and passing time, from genesis-like states on. */
    method ExecuteRun(steps: seq<Step>)
      requires ConfigOk(cfg) && CR.Inv(cfg, View()) && Amount(cfg.denom, cfg.denom.minExp) > 0
      modifies this, recyclers
      ensures View() == Run(cfg, old(View()), steps) && CR.Solvent(cfg, View())
    {
      var i := 0;
      while i < |steps|
        invariant 0 <= i <= |steps|
        invariant Run(cfg, View(), steps[i..]) == Run(cfg, old(View()), steps)
      {
        ghost var s := View();
        ExecuteStep(steps[i]);
        RunUnfold(cfg, s, steps, i);
        i := i + 1;
      }
      CR.RunKeeps(cfg, old(View()), steps);
    }

    method ExecuteStep(step: Step)
      requires ConfigOk(cfg) && Amount(cfg.denom, cfg.denom.minExp) > 0
      modifies this, recyclers
      ensures View() == Next(cfg, old(View()), step)
    {
      match step {
        case Tx(env, ext, call) => SubmitTransaction(env, ext, call);
        case Tick(seconds) => now := now + seconds;
        case Onboard(v, startNew) => recyclers.OnboardHead(v, startNew);
        case Rebuild(v, i, revisions, sealedAt) => recyclers.RebuildRing(v, i, revisions, sealedAt);
      }
    }
  }

  // ---------------------------------------------------------------------------------------------
  // Loop steps
  // ---------------------------------------------------------------------------------------------

  lemma UnloadedOwes(cfg: Config, s: State, input: Input, proofs: seq<R.Proof>)
    requires Unload(cfg, s, input, proofs).Some?
    ensures RM.OwesMore(s.rec, Unload(cfg, s, input, proofs).value.rec, input.value, -|input.aliases|)
  {
    RM.UnloadOwes(s.rec, s.now, cfg.expiry, input.value, input.index, input.revision, input.aliases, proofs);
  }

  lemma SameOwes(rec: R.Storage, v: int)
    ensures RM.OwesMore(rec, rec, v, 0)
  {
  }

  lemma ProcessOwes(cfg: Config, s: State, input: Input, proofs: seq<R.Proof>, fee: FeeMode)
    requires ProcessInput(cfg, s, input, proofs, fee).Some?
    ensures RM.OwesMore(s.rec, ProcessInput(cfg, s, input, proofs, fee).value.rec, input.value, (if fee.FromOutput? then 1 else 0) - |input.aliases|)
  {
    if fee.Prepaid? {
      UnloadedOwes(cfg, s, input, proofs);
    } else if |input.aliases| == 1 {
      SameOwes(s.rec, input.value);
    } else {
      UnloadedOwes(cfg, s, Rest(input), proofs[1..]);
    }
  }

  ghost predicate SameOwedOrDestroyed(cfg: Config, s: State, t: State) {
    RI.Value(cfg.price, t.rec) + t.destroyed == RI.Value(cfg.price, s.rec) + s.destroyed
  }

  lemma CleanDestroys(cfg: Config, env: Env, s: State, v: int)
    ensures RI.Inv(s.rec) && DispatchClean(cfg, env, s, v).Some? ==> SameOwedOrDestroyed(cfg, s, DispatchClean(cfg, env, s, v).value)
  {
    if RI.Inv(s.rec) && DispatchClean(cfg, env, s, v).Some? {
      RL.CleanValue(cfg.price, s.rec, v);
      CU.Commute(cfg.price[v], R.RemainingCoins(s.rec, v));
    }
  }

  lemma RunUnfold(cfg: Config, s: State, steps: seq<Step>, i: nat)
    requires i < |steps| && Amount(cfg.denom, cfg.denom.minExp) > 0
    ensures Run(cfg, s, steps[i..]) == Run(cfg, Next(cfg, s, steps[i]), steps[i + 1..])
  {
    assert steps[i..][1..] == steps[i + 1..];
  }

  lemma MintOneMore(coins: Coins, outputs: seq<Output>, j: nat, age: nat)
    requires j < |outputs|
    ensures Mint(coins, outputs[..j + 1], age) == Mint(coins, outputs[..j], age)[outputs[j].dest := Coin(outputs[j].value, age)]
  {
    assert outputs[..j + 1][..j] == outputs[..j];
  }

  lemma {:induction false} MintAppend(coins: Coins, a: seq<Output>, b: seq<Output>, age: nat)
    ensures Mint(Mint(coins, a, age), b, age) == Mint(coins, a + b, age)
    decreases |b|
  {
    if b == [] {
      assert a + b == a;
    } else {
      var n := |b| - 1;
      MintAppend(coins, a, b[..n], age);
      assert (a + b)[..|a| + n] == a + b[..n];
    }
  }

  lemma MintGroup(coins: Coins, into: seq<Group>, i: nat, age: nat)
    requires i < |into|
    ensures Mint(Mint(coins, Outputs(into[..i]), age), GroupOutputs(into[i])[..|into[i].dests|], age) == Mint(coins, Outputs(into[..i + 1]), age)
  {
    assert into[..i + 1][..i] == into[..i];
    assert GroupOutputs(into[i])[..|into[i].dests|] == GroupOutputs(into[i]);
    MintAppend(coins, Outputs(into[..i]), GroupOutputs(into[i]), age);
  }

  lemma UnpaidPrefix(cfg: Config, env: Env, s: State, items: seq<R.Voucher>, k: nat)
    requires k < |items| && DispatchLoadUnpaid(cfg, env, s, items[..k]).Some?
    ensures DispatchLoadUnpaid(cfg, env, s, items[..k + 1])
         == LoadOne(cfg, env, DispatchLoadUnpaid(cfg, env, s, items[..k]).value, items[k].value, items[k].member)
  {
    assert items[..k + 1][..k] == items[..k];
  }

  lemma {:induction false} UnpaidStops(cfg: Config, env: Env, s: State, items: seq<R.Voucher>, k: nat)
    requires k <= |items| && DispatchLoadUnpaid(cfg, env, s, items[..k]).None?
    ensures DispatchLoadUnpaid(cfg, env, s, items).None?
    decreases |items|
  {
    if k < |items| {
      assert items[..|items| - 1][..k] == items[..k];
      UnpaidStops(cfg, env, s, items[..|items| - 1], k);
    } else {
      assert items[..k] == items;
    }
  }

  lemma SignedTotalPrefix(cfg: Config, inputs: seq<Input>, k: nat)
    requires k < |inputs|
    ensures SignedTotal(cfg, inputs[..k + 1])
         == match (SignedTotal(cfg, inputs[..k]), PriceOf(cfg, inputs[k].value))
            case (Some(sum), Some(amount)) =>
              (if inputs[k].aliases == [] then None
               else Some(SatAdd(sum, SatMul(amount, |inputs[k].aliases|, cfg.maxBalance), cfg.maxBalance)))
            case _ => None
  {
    assert inputs[..k + 1][..k] == inputs[..k];
  }

  lemma {:induction false} SignedTotalStops(cfg: Config, inputs: seq<Input>, k: nat)
    requires k <= |inputs| && SignedTotal(cfg, inputs[..k]).None?
    ensures SignedTotal(cfg, inputs).None?
    decreases |inputs|
  {
    if k < |inputs| {
      assert inputs[..|inputs| - 1][..k] == inputs[..k];
      SignedTotalStops(cfg, inputs[..|inputs| - 1], k);
    } else {
      assert inputs[..k] == inputs;
    }
  }

  function AliasCount(inputs: seq<Input>): nat
    decreases |inputs|
  {
    if inputs == [] then 0 else AliasCount(inputs[..|inputs| - 1]) + |inputs[|inputs| - 1].aliases|
  }

  lemma AliasCountStep(inputs: seq<Input>, k: nat)
    requires k < |inputs|
    ensures AliasCount(inputs[..k + 1]) == AliasCount(inputs[..k]) + |inputs[k].aliases|
  {
    assert inputs[..k + 1][..k] == inputs[..k];
  }

  /** The first `k` inputs and their `offset` proofs lead to `t`. */
  ghost predicate Processed(cfg: Config, s: State, inputs: seq<Input>, proofs: seq<R.Proof>, k: nat, offset: nat, t: State) {
    && k <= |inputs| && offset <= |proofs| && offset == AliasCount(inputs[..k])
    && ProcessInputs(cfg, s, inputs[..k], proofs[..offset]) == Some(t)
  }

  lemma ProcessStep(cfg: Config, s: State, inputs: seq<Input>, proofs: seq<R.Proof>, k: nat, offset: nat, t: State)
    requires k < |inputs| && offset + |inputs[k].aliases| <= |proofs| && Processed(cfg, s, inputs, proofs, k, offset, t)
    ensures ProcessInputs(cfg, s, inputs[..k + 1], proofs[..offset + |inputs[k].aliases|])
         == Unload(cfg, t, inputs[k], proofs[offset..offset + |inputs[k].aliases|])
  {
    var own := |inputs[k].aliases|;
    var some := proofs[..offset + own];
    assert inputs[..k + 1][..k] == inputs[..k];
    assert some[..|some| - own] == proofs[..offset] && some[|some| - own..] == proofs[offset..offset + own];
  }

  lemma ProcessFails(cfg: Config, s: State, inputs: seq<Input>, proofs: seq<R.Proof>, k: nat)
    requires k <= |inputs|
    requires AliasCount(inputs[..k]) <= |proofs| ==> ProcessInputs(cfg, s, inputs[..k], proofs[..AliasCount(inputs[..k])]).None?
    ensures ProcessInputs(cfg, s, inputs, proofs).None?
  {
    ProcessNeedsPrefix(cfg, s, inputs, proofs, k);
  }

  lemma ProcessEnds(cfg: Config, s: State, inputs: seq<Input>, proofs: seq<R.Proof>, offset: nat, t: State)
    requires Processed(cfg, s, inputs, proofs, |inputs|, offset, t)
    ensures ProcessInputs(cfg, s, inputs, proofs).Some? <==> offset == |proofs|
    ensures offset == |proofs| ==> ProcessInputs(cfg, s, inputs, proofs) == Some(t)
  {
    assert inputs[..|inputs|] == inputs;
    ProcessNeedsPrefix(cfg, s, inputs, proofs, |inputs|);
    if offset == |proofs| {
      assert proofs[..offset] == proofs;
    }
  }

  /** If all inputs are processed, so is every prefix with its share of the proofs, and no proof is left. */
  lemma {:induction false} ProcessNeedsPrefix(cfg: Config, s: State, inputs: seq<Input>, proofs: seq<R.Proof>, k: nat)
    requires k <= |inputs|
    ensures ProcessInputs(cfg, s, inputs, proofs).Some? ==>
      && |proofs| == AliasCount(inputs) && AliasCount(inputs[..k]) <= |proofs|
      && ProcessInputs(cfg, s, inputs[..k], proofs[..AliasCount(inputs[..k])]).Some?
    decreases |inputs|
  {
    if ProcessInputs(cfg, s, inputs, proofs).Some? {
      if inputs == [] {
        assert inputs[..k] == [] && proofs[..0] == [];
      } else {
        var n := |inputs| - 1;
        var front := proofs[..|proofs| - |inputs[n].aliases|];
        ProcessNeedsPrefix(cfg, s, inputs[..n], front, Min(k, n));
        if k == |inputs| {
          assert inputs[..k] == inputs && proofs[..|proofs|] == proofs;
        } else {
          assert inputs[..n][..k] == inputs[..k];
          assert front[..AliasCount(inputs[..k])] == proofs[..AliasCount(inputs[..k])];
        }
      }
    }
  }
}
