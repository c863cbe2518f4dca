/**
  `validate` of the coinage extension as it runs (`pallets/coinage/src/extension.rs` and the checks
  it calls in `pallets/coinage/src/lib.rs`): the loops with their accumulators and early exits, each
  proved to accept exactly what the declarative conditions of `Coinage` say.
*/
module CoinageValidation {
  import opened Prelude
  import opened Powers
  import opened Denomination
  import opened SplitValidation
  import opened CoinLedger
  import opened Coinage
  import R = Recyclers

  // ---------------------------------------------------------------------------------------------
  // Asset output and vouchers
  // ---------------------------------------------------------------------------------------------

  ghost function Keys(vouchers: seq<R.Voucher>): set<R.Member> {
    set i | 0 <= i < |vouchers| :: vouchers[i].member
  }

  lemma KeysStep(vouchers: seq<R.Voucher>, k: nat)
    requires k < |vouchers|
    ensures Keys(vouchers[..k + 1]) == Keys(vouchers[..k]) + {vouchers[k].member}
  {
    var front, more := vouchers[..k], vouchers[..k + 1];
    assert forall i :: 0 <= i < k ==> more[i] == front[i];
    assert more[k] == vouchers[k];
    forall m | m in Keys(more)
      ensures m in Keys(front) + {vouchers[k].member}
    {
      var i :| 0 <= i < |more| && more[i].member == m;
      assert i < k ==> front[i].member in Keys(front);
    }
    forall m | m in Keys(front)
      ensures m in Keys(more)
    {
      var i :| 0 <= i < |front| && front[i].member == m;
      assert more[i].member == m;
    }
  }

  /** A prefix of fresh vouchers stays fresh exactly when the next key was neither seen, loaded nor malformed. */
  lemma FreshStep(env: R.LoadEnv, rec: R.Storage, vouchers: seq<R.Voucher>, k: nat)
    requires k < |vouchers| && R.FreshVouchers(env, rec, vouchers[..k])
    ensures var m := vouchers[k].member;
      R.FreshVouchers(env, rec, vouchers[..k + 1]) <==> m !in Keys(vouchers[..k]) && m !in rec.loaded && m !in env.invalidKeys
  {
    var front, more, m := vouchers[..k], vouchers[..k + 1], vouchers[k].member;
    assert forall i :: 0 <= i < k ==> more[i] == front[i];
    assert more[k] == vouchers[k];
    if m in Keys(front) {
      var i :| 0 <= i < |front| && front[i].member == m;
      assert more[i].member == more[k].member;
    } else {
      assert forall i :: 0 <= i < k ==> front[i].member in Keys(front);
    }
  }

  lemma FreshPrefix(env: R.LoadEnv, rec: R.Storage, vouchers: seq<R.Voucher>, k: nat)
    requires k <= |vouchers| && R.FreshVouchers(env, rec, vouchers)
    ensures R.FreshVouchers(env, rec, vouchers[..k])
  {
    assert forall i :: 0 <= i < k ==> vouchers[..k][i] == vouchers[i];
  }

  lemma TotalStep(cfg: Config, vouchers: seq<R.Voucher>, k: nat, sum: nat)
    requires k < |vouchers| && VoucherTotal(cfg, vouchers[..k]) == Some(sum)
    ensures VoucherTotal(cfg, vouchers[..k + 1])
         == if vouchers[k].value in cfg.price && sum + cfg.price[vouchers[k].value] <= cfg.maxBalance
            then Some(sum + cfg.price[vouchers[k].value]) else None
  {
    assert vouchers[..k + 1][..k] == vouchers[..k];
  }

  lemma {:induction false} TotalPrefix(cfg: Config, vouchers: seq<R.Voucher>, k: nat)
    requires k <= |vouchers| && VoucherTotal(cfg, vouchers).Some?
    ensures VoucherTotal(cfg, vouchers[..k]).Some?
    decreases |vouchers|
  {
    if k == |vouchers| {
      assert vouchers[..k] == vouchers;
    } else {
      var n := |vouchers| - 1;
      TotalPrefix(cfg, vouchers[..n], k);
      assert vouchers[..n][..k] == vouchers[..k];
    }
  }

  /** Everything the voucher loop has checked of the vouchers it has passed. */
  ghost predicate VouchersPass(cfg: Config, env: R.LoadEnv, rec: R.Storage, vouchers: seq<R.Voucher>) {
    R.FreshVouchers(env, rec, vouchers) && VoucherTotal(cfg, vouchers).Some?
  }

  lemma PassPrefix(cfg: Config, env: R.LoadEnv, rec: R.Storage, vouchers: seq<R.Voucher>, k: nat)
    requires k <= |vouchers| && VouchersPass(cfg, env, rec, vouchers)
    ensures VouchersPass(cfg, env, rec, vouchers[..k])
  {
    FreshPrefix(env, rec, vouchers, k);
    TotalPrefix(cfg, vouchers, k);
  }

  /** The voucher loop: the total, or `None` at the first bad value, used or malformed key, or overflow. */
  method SumVouchers(cfg: Config, env: R.LoadEnv, rec: R.Storage, vouchers: seq<R.Voucher>) returns (r: Option<nat>)
    ensures r.Some? <==> VouchersPass(cfg, env, rec, vouchers)
    ensures r.Some? ==> r == VoucherTotal(cfg, vouchers)
  {
    var sum: nat := 0;
    var seen: set<R.Member> := {};
    var k := 0;
    while k < |vouchers|
      invariant 0 <= k <= |vouchers| && seen == Keys(vouchers[..k])
      invariant R.FreshVouchers(env, rec, vouchers[..k]) && VoucherTotal(cfg, vouchers[..k]) == Some(sum)
    {
      var x := vouchers[k];
      KeysStep(vouchers, k);
      FreshStep(env, rec, vouchers, k);
      TotalStep(cfg, vouchers, k, sum);
      if x.value !in cfg.price || x.member in seen || x.member in rec.loaded || x.member in env.invalidKeys
         || sum + cfg.price[x.value] > cfg.maxBalance
      {
        if VouchersPass(cfg, env, rec, vouchers) {
          PassPrefix(cfg, env, rec, vouchers, k + 1);
        }
        return None;
      }
      seen := seen + {x.member};
      sum := sum + cfg.price[x.value];
      k := k + 1;
    }
    assert vouchers[..k] == vouchers;
    r := Some(sum);
  }

  /** `validate_mixed_output_outputs`. */
  method ValidateMixedOutput(cfg: Config, env: Env, s: State, input: Input, external: nat, vouchers: seq<R.Voucher>) returns (ok: bool)
    ensures ok <==> MixedOutputOk(cfg, env, s, input, external, vouchers)
  {
    if input.aliases == [] || vouchers == [] || input.value !in cfg.price {
      return false;
    }
    var total := cfg.price[input.value] * |input.aliases|;
    if total > cfg.maxBalance {
      return false;
    }
    var sum := SumVouchers(cfg, env.load, s.rec, vouchers);
    if sum.None? || external + sum.value > cfg.maxBalance {
      return false;
    }
    ok := external + sum.value == total;
  }

  // ---------------------------------------------------------------------------------------------
  // Destinations of an unload into coins
  // ---------------------------------------------------------------------------------------------

  ghost predicate DestsPass(cfg: Config, s: State, into: seq<Group>) {
    && (forall g :: g in into ==> g.dests != [])
    && |Dests(into)| <= cfg.maxSplit
    && NoneOccupied(s.coins.Keys, Dests(into))
  }

  lemma DestsStep(cfg: Config, s: State, into: seq<Group>, k: nat)
    requires k < |into| && DestsPass(cfg, s, into[..k])
    ensures Dests(into[..k + 1]) == Dests(into[..k]) + into[k].dests
    ensures DestsPass(cfg, s, into[..k + 1])
       <==> into[k].dests != [] && |Dests(into[..k])| + |into[k].dests| <= cfg.maxSplit && NoneOccupied(s.coins.Keys, into[k].dests)
  {
    var front, more := into[..k], into[..k + 1];
    assert more[..k] == front && more[k] == into[k];
    assert more == front + [into[k]];
    if NoneOccupied(s.coins.Keys, Dests(more)) {
      DestsSuffix(s.coins.Keys, Dests(front), into[k].dests);
    }
  }

  lemma {:induction false} DestsPrefix(cfg: Config, s: State, into: seq<Group>, k: nat)
    requires k <= |into| && DestsPass(cfg, s, into)
    ensures DestsPass(cfg, s, into[..k])
    decreases |into|
  {
    if k == |into| {
      assert into[..k] == into;
    } else {
      var n := |into| - 1;
      assert forall i :: 0 <= i < |Dests(into[..n])| ==> Dests(into)[i] == Dests(into[..n])[i];
      DestsPrefix(cfg, s, into[..n], k);
      assert into[..n][..k] == into[..k];
    }
  }

  /** No destination of one group owns a coin yet. */
  method FreeDestinations(occupied: set<Account>, dests: seq<Account>) returns (ok: bool)
    ensures ok <==> NoneOccupied(occupied, dests)
  {
    var j := 0;
    while j < |dests|
      invariant 0 <= j <= |dests| && NoneOccupied(occupied, dests[..j])
    {
      if dests[j] in occupied {
        return false;
      }
      j := j + 1;
    }
    assert dests[..j] == dests;
    ok := true;
  }

  /** The destination loop of `validate_unload_calls`, with its `u32` counter. */
  method ValidateDestinations(cfg: Config, s: State, into: seq<Group>) returns (ok: bool)
    requires cfg.maxSplit <= U32_MAX
    ensures ok <==> DestsPass(cfg, s, into)
  {
    var count := 0;
    var k := 0;
    while k < |into|
      invariant 0 <= k <= |into| && count == |Dests(into[..k])|
      invariant DestsPass(cfg, s, into[..k])
    {
      DestsStep(cfg, s, into, k);
      var own := |into[k].dests|;
      var bad := own == 0 || own > U32_MAX || count + own > U32_MAX || count + own > cfg.maxSplit;
      if !bad {
        var free := FreeDestinations(s.coins.Keys, into[k].dests);
        bad := !free;
      }
      if bad {
        if DestsPass(cfg, s, into) {
          DestsPrefix(cfg, s, into, k + 1);
        }
        return false;
      }
      count := count + own;
      k := k + 1;
    }
    assert into[..k] == into;
    ok := true;
  }

  // ---------------------------------------------------------------------------------------------
  // The extension modes
  // ---------------------------------------------------------------------------------------------

  lemma UnitFits(d: Denom, v: int)
    requires CoinUnit(d, v).Some?
    ensures CoinUnit(d, v).value <= U32_MAX
  {
    Pow2Monotone(v - d.minExp, 31);
    Pow2Numerals();
  }

  /** `validate_split`. */
  method ValidateSplit(cfg: Config, s: State, coin: Coin, into: seq<Group>) returns (ok: bool)
    requires ConfigOk(cfg)
    ensures ok <==>
      && coin.age < cfg.maxAge && CoinUnit(cfg.denom, coin.value).Some?
      && ValidSplit(cfg.denom, cfg.maxSplit, s.coins.Keys, CoinUnit(cfg.denom, coin.value).value, into)
  {
    if coin.age >= cfg.maxAge {
      return false;
    }
    var unit := CoinUnit(cfg.denom, coin.value);
    if unit.None? {
      return false;
    }
    UnitFits(cfg.denom, coin.value);
    var r := ValidateSplitParams(cfg.denom, cfg.maxSplit, s.coins.Keys, unit.value, into);
    ok := r.Ok?;
  }

  /** The call a coin may sign for, and the checks of each. */
  method ValidateCoinCall(cfg: Config, env: Env, s: State, who: Account, coin: Coin, call: Call) returns (ok: bool)
    requires ConfigOk(cfg)
    ensures ok <==> CoinCallOk(cfg, env, s, who, coin, call)
  {
    match call {
      case Split(into) =>
        ok := ValidateSplit(cfg, s, coin, into);
      case Transfer(to) =>
        ok := coin.age < cfg.maxAge && to !in s.coins;
      case Offboard(_) =>
        ok := coin.age == 0 && coin.value in cfg.price;
      case LoadCoin(member) =>
        ok := member !in s.rec.loaded && member !in env.load.invalidKeys && env.ownsKey && coin.value in s.rec.collections;
      case PayTokenWithCoin =>
        if coin.age >= cfg.maxAge || coin.value !in cfg.price || env.fee.None? {
          return false;
        }
        ok := cfg.price[coin.value] >= env.fee.value && env.tokenMemberOk;
      case _ =>
        ok := false;
    }
  }

  /** `validate_unload_calls`: the revision first, then the outputs, then the fee. */
  method ValidateUnloadCall(cfg: Config, env: Env, s: State, call: Call, fee: FeeMode) returns (ok: bool)
    requires ConfigOk(cfg)
    ensures ok <==> UnloadCallOk(cfg, env, s, call, fee)
  {
    match call {
      case UnloadIntoCoin(input, to) =>
        if fee.FromOutput? || !InputSpendable(cfg, s, input) {
          return false;
        }
        ok := to !in s.coins;
      case UnloadIntoAsset(input, _) =>
        ok := InputSpendable(cfg, s, input) && (fee.Prepaid? || env.fee.Some?);
      case UnloadMixed(input, _, external, vouchers) =>
        if !InputSpendable(cfg, s, input) {
          return false;
        }
        ok := ValidateMixedOutput(cfg, env, s, input, external, vouchers);
        if ok && fee.FromOutput? {
          ok := env.fee.Some? && external >= env.fee.value;
        }
      case UnloadIntoCoins(input, into, maxFee) =>
        if !InputSpendable(cfg, s, input) {
          return false;
        }
        ok := ValidateDestinations(cfg, s, into);
        if ok {
          ok := if fee.Prepaid? then maxFee == 0 else env.fee.Some? && maxFee >= env.fee.value;
        }
      case _ =>
        ok := false;
    }
  }

  /** `validate_non_anonymous_unload_calls_revisions`. */
  method ValidateRevisions(cfg: Config, s: State, inputs: seq<Input>) returns (ok: bool)
    ensures ok <==> forall input :: input in inputs ==> InputSpendable(cfg, s, input)
  {
    var k := 0;
    while k < |inputs|
      invariant 0 <= k <= |inputs|
      invariant forall i :: 0 <= i < k ==> InputSpendable(cfg, s, inputs[i])
    {
      if !InputSpendable(cfg, s, inputs[k]) {
        assert inputs[k] in inputs;
        return false;
      }
      k := k + 1;
    }
    ok := true;
  }

  /** `validate`: the origin a transaction runs under, or `None`. */
  method ValidateTransaction(cfg: Config, env: Env, s: State, ext: Extension, call: Call) returns (r: Option<Origin>)
    requires ConfigOk(cfg)
    ensures r == Validate(cfg, env, s, ext, call)
  {
    r := None;
    match ext {
      case NoExtension(who) =>
        var ok := true;
        if call.UnloadSigned? {
          ok := ValidateRevisions(cfg, s, call.inputs);
        }
        if ok {
          r := Some(Signed(who));
        }
      case AsCoin(who) =>
        if (who in s.locked && s.now < s.locked[who].until) || who !in s.coins {
          return;
        }
        var ok := ValidateCoinCall(cfg, env, s, who, s.coins[who], call);
        if ok {
          r := Some(CoinOrigin(who, s.coins[who]));
        }
      case AsUnloadToken(proofs, tokenOk) =>
        var ok := ValidateUnloadCall(cfg, env, s, call, Prepaid);
        if ok && tokenOk {
          r := Some(UnloadToken(proofs, Prepaid));
        }
      case AsUnloadFromOutput(value, index, revision, proofs) =>
        var ok := ValidateUnloadCall(cfg, env, s, call, FromOutput(value, index));
        if ok && FeeProofOk(cfg, s, value, index, revision, proofs) && FirstAlias(call) == Some(R.Alias(proofs[0].member)) {
          r := Some(UnloadToken(proofs, FromOutput(value, index)));
        }
      case AsInfallibleUnpaid(who, accepted) =>
        if call.LoadUnpaid? && accepted {
          r := Some(InfallibleUnpaid(who));
        }
      case LocalAuthorized =>
        if (call.CleanRecycler? && R.CanClean(s.rec, s.now, cfg.expiry, call.value))
           || (call.CleanRecyclerDust? && call.key in s.rec.dusting)
        {
          r := Some(Authorized);
        }
    }
  }
}
