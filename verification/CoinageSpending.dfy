/** Double spending over whole runs: how often transactions pay out for one alias of one ring. */
module CoinageSpending {
  import opened Prelude
  import opened Denomination
  import opened SplitValidation
  import opened Coinage
  import opened CoinageRuns
  import opened CoinageSafety
  import R = Recyclers
  import RI = RecyclerInvariant

  ghost predicate InInput(input: Input, k: R.RingKey, a: R.Alias) {
    k == R.RingKey(input.value, input.index) && a in input.aliases
  }

  /** The call asks for the alias to be unloaded. */
  ghost predicate Asks(call: Call, k: R.RingKey, a: R.Alias) {
    match call
    case UnloadIntoCoin(input, _) => InInput(input, k, a)
    case UnloadIntoAsset(input, _) => InInput(input, k, a)
    case UnloadMixed(input, _, _, _) => InInput(input, k, a)
    case UnloadIntoCoins(input, _, _) => InInput(input, k, a)
    case UnloadSigned(inputs, _, _) => exists i :: 0 <= i < |inputs| && InInput(inputs[i], k, a)
    case _ => false
  }

  /** The origin under which the step's call is dispatched, if it is. */
  ghost function OriginOf(cfg: Config, s: State, step: Step): Option<Origin> {
    if step.Tx? && Decodes(cfg, step.call) then Validate(cfg, step.env, s, step.ext, step.call) else None
  }

  /** The step pays out for the alias: its call asks for it and its dispatch succeeds. */
  ghost predicate PaysOut(cfg: Config, s: State, step: Step, k: R.RingKey, a: R.Alias)
    requires Amount(cfg.denom, cfg.denom.minExp) > 0
  {
    OriginOf(cfg, s, step).Some? && Asks(step.call, k, a)
    && var origin := OriginOf(cfg, s, step).value;
       Dispatch(cfg, step.env, Prepare(s, origin), step.call, origin).Some?
  }

  // ---------------------------------------------------------------------------------------------
  // One dispatch
  // ---------------------------------------------------------------------------------------------

  lemma UnloadSpends(cfg: Config, s: State, input: Input, proofs: seq<R.Proof>, k: R.RingKey, a: R.Alias)
    requires RI.RemovedInOrder(s.rec) && Unload(cfg, s, input, proofs).Some? && InInput(input, k, a)
    ensures !Dead(s.rec, k, a) && Dead(Unload(cfg, s, input, proofs).value.rec, k, a)
  {
    UnloadKills(s.rec, s.now, cfg.expiry, input.value, input.index, input.revision, input.aliases, proofs, a);
  }

  lemma UnloadKeepsRemoved(cfg: Config, s: State, input: Input, proofs: seq<R.Proof>)
    requires RI.RemovedInOrder(s.rec) && Unload(cfg, s, input, proofs).Some?
    ensures RI.RemovedInOrder(Unload(cfg, s, input, proofs).value.rec)
  {
  }

  /** In from-output mode the first alias was marked by `prepare`; every other one is spent here. */
  lemma RestSpends(cfg: Config, s: State, input: Input, proofs: seq<R.Proof>, fee: FeeMode, k: R.RingKey, a: R.Alias)
    requires RI.RemovedInOrder(s.rec) && fee.FromOutput? && Premarked(s, input, fee) && proofs != [] && InInput(input, k, a)
    requires |input.aliases| == 1 || Unload(cfg, s, Rest(input), proofs[1..]).Some?
    ensures var t := if |input.aliases| == 1 then s else Unload(cfg, s, Rest(input), proofs[1..]).value;
      Dead(t.rec, k, a) && (a != input.aliases[0] ==> !Dead(s.rec, k, a))
  {
    if |input.aliases| > 1 {
      var t := Unload(cfg, s, Rest(input), proofs[1..]).value;
      assert input.aliases == [input.aliases[0]] + input.aliases[1..];
      if a in input.aliases[1..] {
        UnloadSpends(cfg, s, Rest(input), proofs[1..], k, a);
      } else {
        UnloadGrows(cfg, s, Rest(input), proofs[1..]);
        GrowKeepsDead(s.rec, t.rec, k, a);
      }
    }
  }

  lemma ProcessInputSpends(cfg: Config, s: State, input: Input, proofs: seq<R.Proof>, fee: FeeMode, k: R.RingKey, a: R.Alias)
    requires RI.RemovedInOrder(s.rec) && ProcessInput(cfg, s, input, proofs, fee).Some? && InInput(input, k, a)
    ensures Dead(ProcessInput(cfg, s, input, proofs, fee).value.rec, k, a)
    ensures fee.Prepaid? || a != input.aliases[0] ==> !Dead(s.rec, k, a)
  {
    if fee.Prepaid? {
      UnloadSpends(cfg, s, input, proofs, k, a);
    } else {
      RestSpends(cfg, s, input, proofs, fee, k, a);
    }
  }

  lemma ForCoinsSpends(cfg: Config, env: Env, s: State, input: Input, proofs: seq<R.Proof>, fee: FeeMode, maxFee: nat, k: R.RingKey, a: R.Alias)
    requires RI.RemovedInOrder(s.rec) && ProcessForCoins(cfg, env, s, input, proofs, fee, maxFee).Some? && InInput(input, k, a)
    ensures Dead(ProcessForCoins(cfg, env, s, input, proofs, fee, maxFee).value.rec, k, a)
    ensures fee.Prepaid? || a != input.aliases[0] ==> !Dead(s.rec, k, a)
  {
    if fee.Prepaid? {
      UnloadSpends(cfg, s, input, proofs, k, a);
    } else {
      RestSpends(cfg, s, input, proofs, fee, k, a);
    }
  }

  lemma MixedSpends(cfg: Config, env: Env, s: State, input: Input, proofs: seq<R.Proof>, fee: FeeMode, to: Account, external: nat,
                    vouchers: seq<R.Voucher>, k: R.RingKey, a: R.Alias)
    requires RI.RemovedInOrder(s.rec) && DispatchMixed(cfg, env, s, input, proofs, fee, to, external, vouchers).Some? && InInput(input, k, a)
    ensures Dead(DispatchMixed(cfg, env, s, input, proofs, fee, to, external, vouchers).value.rec, k, a)
    ensures fee.Prepaid? || a != input.aliases[0] ==> !Dead(s.rec, k, a)
  {
    ProcessInputSpends(cfg, s, input, proofs, fee, k, a);
    EnqueueAllGrows(ProcessInput(cfg, s, input, proofs, fee).value.rec, vouchers);
  }

  /** A successful unload call spends what it asks for; only a premarked first alias was dead before. */
  lemma TokenDispatchSpends(cfg: Config, env: Env, s: State, call: Call, proofs: seq<R.Proof>, fee: FeeMode, k: R.RingKey, a: R.Alias)
    requires Amount(cfg.denom, cfg.denom.minExp) > 0 && RI.RemovedInOrder(s.rec) && Asks(call, k, a) && !call.UnloadSigned?
    requires Dispatch(cfg, env, s, call, UnloadToken(proofs, fee)).Some?
    ensures Dead(Dispatch(cfg, env, s, call, UnloadToken(proofs, fee)).value.rec, k, a)
    ensures fee.Prepaid? || FirstAlias(call) != Some(a) ==> !Dead(s.rec, k, a)
  {
    match call {
      case UnloadIntoCoin(input, _) => UnloadSpends(cfg, s, input, proofs, k, a);
      case UnloadIntoAsset(input, _) => ProcessInputSpends(cfg, s, input, proofs, fee, k, a);
      case UnloadMixed(input, to, external, vouchers) => MixedSpends(cfg, env, s, input, proofs, fee, to, external, vouchers, k, a);
      case UnloadIntoCoins(input, _, maxFee) => ForCoinsSpends(cfg, env, s, input, proofs, fee, maxFee, k, a);
    }
  }

  /** The same for the inputs of a non-anonymous unload, taken in order. */
  lemma {:induction false} InputsSpend(cfg: Config, s: State, inputs: seq<Input>, proofs: seq<R.Proof>, i: nat, k: R.RingKey, a: R.Alias)
    requires RI.RemovedInOrder(s.rec) && ProcessInputs(cfg, s, inputs, proofs).Some? && i < |inputs| && InInput(inputs[i], k, a)
    ensures !Dead(s.rec, k, a) && Dead(ProcessInputs(cfg, s, inputs, proofs).value.rec, k, a)
    decreases |inputs|
  {
    var n := |inputs| - 1;
    var own := |inputs[n].aliases|;
    var front, back := proofs[..|proofs| - own], proofs[|proofs| - own..];
    var t := ProcessInputs(cfg, s, inputs[..n], front).value;
    ProcessInputsGrows(cfg, s, inputs[..n], front);
    if i == n {
      InputsKeepRemoved(cfg, s, inputs[..n], front);
      UnloadSpends(cfg, t, inputs[n], back, k, a);
      if Dead(s.rec, k, a) {
        GrowKeepsDead(s.rec, t.rec, k, a);
      }
    } else {
      InputsSpend(cfg, s, inputs[..n], front, i, k, a);
      UnloadGrows(cfg, t, inputs[n], back);
      GrowKeepsDead(t.rec, Unload(cfg, t, inputs[n], back).value.rec, k, a);
    }
  }

  lemma {:induction false} InputsKeepRemoved(cfg: Config, s: State, inputs: seq<Input>, proofs: seq<R.Proof>)
    requires RI.RemovedInOrder(s.rec) && ProcessInputs(cfg, s, inputs, proofs).Some?
    ensures RI.RemovedInOrder(ProcessInputs(cfg, s, inputs, proofs).value.rec)
    decreases |inputs|
  {
    if inputs != [] {
      var n := |inputs| - 1;
      var own := |inputs[n].aliases|;
      InputsKeepRemoved(cfg, s, inputs[..n], proofs[..|proofs| - own]);
      UnloadKeepsRemoved(cfg, ProcessInputs(cfg, s, inputs[..n], proofs[..|proofs| - own]).value, inputs[n], proofs[|proofs| - own..]);
    }
  }

  // ---------------------------------------------------------------------------------------------
  // One step
  // ---------------------------------------------------------------------------------------------

  lemma PreparedRings(s: State, origin: Origin)
    requires RI.RemovedInOrder(s.rec)
    ensures RI.RemovedInOrder(Prepare(s, origin).rec)
  {
  }

  /** A from-output transaction names as its first alias the one its first proof yields, live in the fee ring. */
  lemma FeeAliasLive(cfg: Config, env: Env, s: State, ext: Extension, call: Call, proofs: seq<R.Proof>, fee: FeeMode)
    requires Inv(cfg, s) && fee.FromOutput? && Validate(cfg, env, s, ext, call) == Some(UnloadToken(proofs, fee))
    ensures proofs != [] && FirstAlias(call) == Some(R.Alias(proofs[0].member))
    ensures !Dead(s.rec, R.RingKey(fee.value, fee.index), R.Alias(proofs[0].member))
  {
    LiveRing(s.rec, fee.value, fee.index);
  }

  /** In from-output mode a successful call is about the fee ring. */
  lemma FeeRing(cfg: Config, env: Env, s: State, call: Call, proofs: seq<R.Proof>, fee: FeeMode, k: R.RingKey, a: R.Alias)
    requires Amount(cfg.denom, cfg.denom.minExp) > 0 && fee.FromOutput? && Asks(call, k, a) && !call.UnloadSigned?
    requires Dispatch(cfg, env, s, call, UnloadToken(proofs, fee)).Some?
    ensures k == R.RingKey(fee.value, fee.index)
  {
  }

  lemma TokenStepSpends(cfg: Config, s: State, step: Step, proofs: seq<R.Proof>, fee: FeeMode, k: R.RingKey, a: R.Alias)
    requires Inv(cfg, s) && Amount(cfg.denom, cfg.denom.minExp) > 0 && PaysOut(cfg, s, step, k, a)
    requires OriginOf(cfg, s, step) == Some(UnloadToken(proofs, fee)) && !step.call.UnloadSigned?
    ensures !Dead(s.rec, k, a) && Dead(Next(cfg, s, step).rec, k, a)
  {
    var origin := UnloadToken(proofs, fee);
    var p := Prepare(s, origin);
    PreparedRings(s, origin);
    TokenDispatchSpends(cfg, step.env, p, step.call, proofs, fee, k, a);
    if fee.FromOutput? {
      PrepareGrows(s, origin);
      FeeAliasLive(cfg, step.env, s, step.ext, step.call, proofs, fee);
      FeeRing(cfg, step.env, p, step.call, proofs, fee, k, a);
      if Dead(s.rec, k, a) {
        GrowKeepsDead(s.rec, p.rec, k, a);
      }
    }
  }

  lemma SignedStepSpends(cfg: Config, s: State, step: Step, k: R.RingKey, a: R.Alias)
    requires Inv(cfg, s) && Amount(cfg.denom, cfg.denom.minExp) > 0 && PaysOut(cfg, s, step, k, a) && step.call.UnloadSigned?
    ensures !Dead(s.rec, k, a) && Dead(Next(cfg, s, step).rec, k, a)
  {
    var i :| 0 <= i < |step.call.inputs| && InInput(step.call.inputs[i], k, a);
    InputsSpend(cfg, s, step.call.inputs, step.call.proofs, i, k, a);
  }

  /** Only an unload token or a signed origin can pay out. */
  lemma PayingOrigins(cfg: Config, s: State, step: Step, k: R.RingKey, a: R.Alias)
    requires Amount(cfg.denom, cfg.denom.minExp) > 0 && PaysOut(cfg, s, step, k, a)
    ensures if step.call.UnloadSigned? then OriginOf(cfg, s, step).value.Signed? else OriginOf(cfg, s, step).value.UnloadToken?
  {
  }

  /** A step that pays out for an alias finds it live and leaves it dead. */
  lemma PayOutSpends(cfg: Config, s: State, step: Step, k: R.RingKey, a: R.Alias)
    requires Inv(cfg, s) && Amount(cfg.denom, cfg.denom.minExp) > 0 && PaysOut(cfg, s, step, k, a)
    ensures !Dead(s.rec, k, a) && Dead(Next(cfg, s, step).rec, k, a)
  {
    PayingOrigins(cfg, s, step, k, a);
    if step.call.UnloadSigned? {
      SignedStepSpends(cfg, s, step, k, a);
    } else {
      var origin := OriginOf(cfg, s, step).value;
      TokenStepSpends(cfg, s, step, origin.proofs, origin.fee, k, a);
    }
  }

  // ---------------------------------------------------------------------------------------------
  // Runs
  // ---------------------------------------------------------------------------------------------

  /** Steps of the run that pay out for the alias. */
  ghost function PayOuts(cfg: Config, s: State, steps: seq<Step>, k: R.RingKey, a: R.Alias): nat
    requires Amount(cfg.denom, cfg.denom.minExp) > 0
    decreases |steps|
  {
    if steps == [] then 0
    else (if PaysOut(cfg, s, steps[0], k, a) then 1 else 0) + PayOuts(cfg, Next(cfg, s, steps[0]), steps[1..], k, a)
  }

  lemma {:induction false} DeadNeverPaysOut(cfg: Config, s: State, steps: seq<Step>, k: R.RingKey, a: R.Alias)
    requires ConfigOk(cfg) && Amount(cfg.denom, cfg.denom.minExp) > 0 && Inv(cfg, s) && Dead(s.rec, k, a)
    ensures PayOuts(cfg, s, steps, k, a) == 0
    decreases |steps|
  {
    if steps != [] {
      var t := Next(cfg, s, steps[0]);
      if PaysOut(cfg, s, steps[0], k, a) {
        PayOutSpends(cfg, s, steps[0], k, a);
      }
      NextKeeps(cfg, s, steps[0]);
      NextKeepsDead(cfg, s, steps[0], k, a);
      DeadNeverPaysOut(cfg, t, steps[1..], k, a);
    }
  }

  /** Over every run, whatever is cleaned, dusted or expired in it, an alias is paid out at most once. */
  lemma {:induction false} PaidOutAtMostOnce(cfg: Config, s: State, steps: seq<Step>, k: R.RingKey, a: R.Alias)
    requires ConfigOk(cfg) && Amount(cfg.denom, cfg.denom.minExp) > 0 && Inv(cfg, s)
    ensures PayOuts(cfg, s, steps, k, a) <= 1
    decreases |steps|
  {
    if steps != [] {
      var t := Next(cfg, s, steps[0]);
      NextKeeps(cfg, s, steps[0]);
      if PaysOut(cfg, s, steps[0], k, a) {
        PayOutSpends(cfg, s, steps[0], k, a);
        DeadNeverPaysOut(cfg, t, steps[1..], k, a);
      } else {
        PaidOutAtMostOnce(cfg, t, steps[1..], k, a);
      }
    }
  }
}
