/**
  What unloading transactions do: which rings and revisions they may name, what is marked, what the
  recipient and the fee destination get, and what a failure costs.
*/
module CoinageUnloadOutcomes {
  import opened Prelude
  import opened Powers
  import opened Denomination
  import opened SplitValidation
  import opened CoinLedger
  import opened Coinage
  import opened CoinageUnload
  import opened CoinageOutcomes
  import R = Recyclers
  import RL = RecyclerLaws
  import RM = RecyclerManager
  import RO = RecyclerOutcomes

  // ---------------------------------------------------------------------------------------------
  // Aliases taken from one ring
  // ---------------------------------------------------------------------------------------------

  function KeyOf(input: Input): R.RingKey {
    R.RingKey(input.value, input.index)
  }

  ghost predicate OpenInput(cfg: Config, s: State, input: Input) {
    RO.Open(s.rec, s.now, cfg.expiry, input.value, input.index, input.revision)
  }

  /** The ring is open at the named revision, every alias is proven by a member, and none was spent or is named twice. */
  ghost predicate Takes(cfg: Config, s: State, input: Input, proofs: seq<R.Proof>) {
    && OpenInput(cfg, s, input)
    && RO.Proven(s.rec.collections[input.value].rings[input.index], input.aliases, proofs)
    && RO.Unmarked(s.rec, KeyOf(input), input.aliases)
  }

  lemma TakesExactly(cfg: Config, s: State, input: Input, proofs: seq<R.Proof>)
    ensures var r := Unload(cfg, s, input, proofs);
      && (r.Some? <==> Takes(cfg, s, input, proofs))
      && (r.Some? ==> r.value == s.(rec := r.value.rec) && RO.Marks(s.rec, r.value.rec, KeyOf(input), input.aliases))
  {
    RO.UnloadExactly(s.rec, s.now, cfg.expiry, input.value, input.index, input.revision, input.aliases, proofs);
  }

  lemma OpenIsSpendable(cfg: Config, s: State, input: Input)
    ensures InputSpendable(cfg, s, input) <==> OpenInput(cfg, s, input)
  {
  }

  // ---------------------------------------------------------------------------------------------
  // Revisions a call may not name
  // ---------------------------------------------------------------------------------------------

  function InputsOf(call: Call): seq<Input> {
    match call
    case UnloadIntoCoin(input, _) => [input]
    case UnloadIntoAsset(input, _) => [input]
    case UnloadMixed(input, _, _, _) => [input]
    case UnloadIntoCoins(input, _, _) => [input]
    case UnloadSigned(inputs, _, _) => inputs
    case _ => []
  }

  /** An unload that names a ring which is not open, or a revision it does not know, leaves the pallet as it was. */
  lemma UnknownRevisionDoesNothing(cfg: Config, env: Env, s: State, ext: Extension, call: Call, input: Input)
    requires Amount(cfg.denom, cfg.denom.minExp) > 0
    requires input in InputsOf(call) && !OpenInput(cfg, s, input)
    ensures Transact(cfg, env, s, ext, call) == s
  {
    OpenIsSpendable(cfg, s, input);
    if call.UnloadSigned? && ext.NoExtension? {
      assert !(forall i :: i in call.inputs ==> InputSpendable(cfg, s, i));
    }
  }

  // ---------------------------------------------------------------------------------------------
  // Prepaid unloads
  // ---------------------------------------------------------------------------------------------

  lemma {:induction false} PowersOfTwo(k: nat)
    ensures IsPowerOfTwo(Pow2(k)) && TrailingZeros(Pow2(k)) == k
  {
    if k > 0 {
      PowersOfTwo(k - 1);
      assert Pow2(k) % 2 == 0 && Pow2(k) / 2 == Pow2(k - 1);
    }
  }

  ghost predicate Accepted(cfg: Config, s: State, tokenOk: bool, input: Input) {
    tokenOk && |input.aliases| <= cfg.maxConsolidation && OpenInput(cfg, s, input)
  }

  /** Members worth 2^k coins of one value become one coin of the k-th value above, never used. */
  lemma IntoCoinOutcome(cfg: Config, env: Env, s: State, proofs: seq<R.Proof>, tokenOk: bool, input: Input, to: Account, k: nat)
    requires Amount(cfg.denom, cfg.denom.minExp) > 0 && |input.aliases| == Pow2(k)
    ensures var t := Transact(cfg, env, s, AsUnloadToken(proofs, tokenOk), UnloadIntoCoin(input, to));
      if Accepted(cfg, s, tokenOk, input) && to !in s.coins && Takes(cfg, s, input, proofs) && input.value + k <= cfg.denom.maxExp
      then t == s.(coins := s.coins[to := Coin(input.value + k, 0)], rec := t.rec) && RO.Marks(s.rec, t.rec, KeyOf(input), input.aliases)
      else t == s
  {
    PowersOfTwo(k);
    PrepaidPhases(cfg, env, s, proofs, tokenOk, UnloadIntoCoin(input, to));
    TakesExactly(cfg, s, input, proofs);
    OpenIsSpendable(cfg, s, input);
  }

  lemma IntoCoinNeedsPower(cfg: Config, env: Env, s: State, proofs: seq<R.Proof>, tokenOk: bool, input: Input, to: Account)
    requires Amount(cfg.denom, cfg.denom.minExp) > 0 && forall k: nat :: |input.aliases| != Pow2(k)
    ensures Transact(cfg, env, s, AsUnloadToken(proofs, tokenOk), UnloadIntoCoin(input, to)) == s
  {
    if IsPowerOfTwo(|input.aliases|) {
      PowerOfTwoValue(|input.aliases|);
    }
  }

  ghost function Total(cfg: Config, input: Input): nat
    requires input.value in cfg.price
  {
    Min(cfg.maxBalance, cfg.price[input.value] * |input.aliases|)
  }

  ghost predicate Covers(env: Env, s: State, amount: nat) {
    amount == 0 || (env.payOk && amount <= s.held)
  }

  /** With a prepaid token the recipient gets what all aliases are worth. */
  lemma PrepaidAssetOutcome(cfg: Config, env: Env, s: State, proofs: seq<R.Proof>, tokenOk: bool, input: Input, to: Account)
    requires Amount(cfg.denom, cfg.denom.minExp) > 0
    ensures var t := Transact(cfg, env, s, AsUnloadToken(proofs, tokenOk), UnloadIntoAsset(input, to));
      if Accepted(cfg, s, tokenOk, input) && Takes(cfg, s, input, proofs) && input.value in cfg.price && Covers(env, s, Total(cfg, input))
      then
        && t == s.(rec := t.rec, held := t.held, flow := t.flow)
        && RO.Marks(s.rec, t.rec, KeyOf(input), input.aliases) && Paid(s, t, to, Total(cfg, input), 0)
      else t == s
  {
    PrepaidPhases(cfg, env, s, proofs, tokenOk, UnloadIntoAsset(input, to));
    TakesExactly(cfg, s, input, proofs);
    if Takes(cfg, s, input, proofs) && input.value in cfg.price {
      PrepaidPaid(env, Unload(cfg, s, input, proofs).value, to, Total(cfg, input));
    }
    OpenIsSpendable(cfg, s, input);
  }

  // ---------------------------------------------------------------------------------------------
  // The fee taken from the output
  // ---------------------------------------------------------------------------------------------

  /** The first proof opens the fee ring at its revision, for the first alias of the call, not yet spent. */
  ghost predicate FeeShown(cfg: Config, s: State, value: int, index: nat, revision: nat, proofs: seq<R.Proof>, input: Input) {
    && RO.Open(s.rec, s.now, cfg.expiry, value, index, revision) && value >= cfg.minFeeExp
    && proofs != [] && proofs[0].genuine && proofs[0].member in s.rec.collections[value].rings[index].members
    && input.aliases != [] && input.aliases[0].of == proofs[0].member
    && !RO.Marked(s.rec, R.RingKey(value, index), input.aliases[0])
  }

  /** What the extension demands of every unload that pays its fee from the output. */
  ghost predicate AcceptedFromOutput(cfg: Config, env: Env, s: State, value: int, index: nat, revision: nat, proofs: seq<R.Proof>, input: Input) {
    && |input.aliases| <= cfg.maxConsolidation && OpenInput(cfg, s, input) && env.fee.Some?
    && FeeShown(cfg, s, value, index, revision, proofs, input)
  }

  lemma FeeProofExactly(cfg: Config, s: State, value: int, index: nat, revision: nat, proofs: seq<R.Proof>, input: Input, call: Call)
    requires call.UnloadIntoAsset? || call.UnloadMixed? || call.UnloadIntoCoins?
    requires input == call.input
    ensures FeeShown(cfg, s, value, index, revision, proofs, input)
       <==> FeeProofOk(cfg, s, value, index, revision, proofs) && FirstAlias(call) == Some(R.Alias(proofs[0].member))
  {
  }

  /** The aliases after the first, with their proofs, are good too; the first ring is the fee ring. */
  ghost predicate RestTaken(cfg: Config, s: State, value: int, index: nat, proofs: seq<R.Proof>, input: Input)
    requires input.aliases != [] && proofs != [] && OpenInput(cfg, s, input)
  {
    && input.value == value && input.index == index
    && (|input.aliases| > 1 ==> RO.Proven(s.rec.collections[value].rings[index], input.aliases[1..], proofs[1..]))
    && RO.Unmarked(s.rec, KeyOf(input), input.aliases)
  }

  /** Marking the first alias, then the rest. */
  lemma MarksThen(r: R.Storage, p: R.Storage, t: R.Storage, k: R.RingKey, aliases: seq<R.Alias>)
    requires aliases != [] && RO.Marks(r, p, k, aliases[..1]) && RO.Marks(p, t, k, aliases[1..])
    ensures RO.Marks(r, t, k, aliases)
  {
    assert aliases == aliases[..1] + aliases[1..];
  }

  lemma UnmarkedThen(r: R.Storage, p: R.Storage, k: R.RingKey, aliases: seq<R.Alias>)
    requires aliases != [] && RO.Marks(r, p, k, aliases[..1]) && !RO.Marked(r, k, aliases[0])
    ensures RO.Unmarked(r, k, aliases) <==> RO.Unmarked(p, k, aliases[1..])
  {
    var rest := aliases[1..];
    assert forall j :: 0 <= j < |rest| ==> rest[j] == aliases[j + 1];
    assert forall a :: RO.Marked(p, k, a) <==> RO.Marked(r, k, a) || a == aliases[0] by {
      assert aliases[..1] == [aliases[0]];
    }
    if RO.Unmarked(p, k, rest) {
      forall j | 0 <= j < |aliases|
        ensures !RO.Marked(r, k, aliases[j])
      {
        assert j > 0 ==> aliases[j] == rest[j - 1];
      }
      forall i, j | 0 <= i < j < |aliases|
        ensures aliases[i] != aliases[j]
      {
        assert aliases[j] == rest[j - 1];
        assert i > 0 ==> aliases[i] == rest[i - 1];
      }
    }
    if RO.Unmarked(r, k, aliases) {
      forall j | 0 <= j < |rest|
        ensures !RO.Marked(p, k, rest[j])
      {
        assert rest[j] == aliases[j + 1] && aliases[0] != aliases[j + 1];
      }
    }
  }

  lemma Premarks(s: State, value: int, index: nat, proofs: seq<R.Proof>, input: Input)
    requires proofs != [] && input.aliases != [] && input.aliases[0].of == proofs[0].member
    ensures var p := Prepare(s, UnloadToken(proofs, FromOutput(value, index)));
      p == s.(rec := p.rec) && RO.Marks(s.rec, p.rec, R.RingKey(value, index), input.aliases[..1])
  {
    RO.ElementsMarked(s.rec, R.RingKey(value, index), input.aliases[..1]);
    assert Elements(input.aliases[..1]) == {R.Alias(proofs[0].member)};
  }

  /** The unload of the remaining aliases, from the prepared state. */
  lemma RestExactly(cfg: Config, s: State, p: State, value: int, index: nat, proofs: seq<R.Proof>, input: Input)
    requires proofs != [] && input.aliases != [] && OpenInput(cfg, s, input) && !RO.Marked(s.rec, R.RingKey(value, index), input.aliases[0])
    requires p == s.(rec := p.rec) && RO.Marks(s.rec, p.rec, R.RingKey(value, index), input.aliases[..1])
    requires input.value == value && input.index == index
    ensures |input.aliases| > 1 ==> (Unload(cfg, p, Rest(input), proofs[1..]).Some? <==> RestTaken(cfg, s, value, index, proofs, input))
    ensures |input.aliases| > 1 && Unload(cfg, p, Rest(input), proofs[1..]).Some? ==>
      var t := Unload(cfg, p, Rest(input), proofs[1..]).value;
      t == s.(rec := t.rec) && RO.Marks(s.rec, t.rec, KeyOf(input), input.aliases)
    ensures |input.aliases| == 1 ==> RestTaken(cfg, s, value, index, proofs, input) && RO.Marks(s.rec, p.rec, KeyOf(input), input.aliases)
  {
    UnmarkedThen(s.rec, p.rec, KeyOf(input), input.aliases);
    if |input.aliases| > 1 {
      TakesExactly(cfg, p, Rest(input), proofs[1..]);
      if Unload(cfg, p, Rest(input), proofs[1..]).Some? {
        MarksThen(s.rec, p.rec, Unload(cfg, p, Rest(input), proofs[1..]).value.rec, KeyOf(input), input.aliases);
      }
    } else {
      assert input.aliases[..1] == input.aliases;
    }
  }

  /** The first alias is lost and its coin destroyed; nothing else happens. */
  ghost predicate Penalised(cfg: Config, s: State, t: State, value: int, index: nat, input: Input)
    requires input.aliases != []
  {
    && t == s.(rec := t.rec, destroyed := t.destroyed)
    && RO.Marks(s.rec, t.rec, R.RingKey(value, index), input.aliases[..1])
    && t.destroyed == if value in cfg.price then Min(cfg.maxBalance, s.destroyed + cfg.price[value]) else s.destroyed
  }

  /** The hold covers the fee and what is left of the total after it. */
  ghost predicate CoversWithFee(env: Env, s: State, total: nat)
    requires env.fee.Some?
  {
    && env.fee.value <= total && env.feeOk && env.fee.value <= s.held
    && (total == env.fee.value || (env.payOk && total <= s.held))
  }

  /** Rejected, or paid for from the state with the first alias marked, or penalised. */
  lemma FromOutputPhases(cfg: Config, env: Env, s: State, value: int, index: nat, revision: nat, proofs: seq<R.Proof>, call: Call, input: Input)
    requires Amount(cfg.denom, cfg.denom.minExp) > 0 && (call.UnloadIntoAsset? || call.UnloadMixed? || call.UnloadIntoCoins?) && input == call.input
    ensures var t := Transact(cfg, env, s, AsUnloadFromOutput(value, index, revision, proofs), call);
      if !(Decodes(cfg, call) && UnloadCallOk(cfg, env, s, call, FromOutput(value, index)) && FeeShown(cfg, s, value, index, revision, proofs, input))
      then t == s
      else
        var origin := UnloadToken(proofs, FromOutput(value, index));
        match Dispatch(cfg, env, Prepare(s, origin), call, origin)
        case Some(u) => t == u
        case None => Penalised(cfg, s, t, value, index, input)
  {
    FeeProofExactly(cfg, s, value, index, revision, proofs, input, call);
    if FeeShown(cfg, s, value, index, revision, proofs, input) {
      Premarks(s, value, index, proofs, input);
    }
  }

  lemma PrepaidPhases(cfg: Config, env: Env, s: State, proofs: seq<R.Proof>, tokenOk: bool, call: Call)
    requires Amount(cfg.denom, cfg.denom.minExp) > 0
    ensures Transact(cfg, env, s, AsUnloadToken(proofs, tokenOk), call)
         == if tokenOk && Decodes(cfg, call) && UnloadCallOk(cfg, env, s, call, Prepaid) && Dispatch(cfg, env, s, call, UnloadToken(proofs, Prepaid)).Some?
            then Dispatch(cfg, env, s, call, UnloadToken(proofs, Prepaid)).value else s
  {
  }

  /** `process_unload_inputs_with_fee` on the prepared state. */
  lemma ProcessedExactly(cfg: Config, s: State, p: State, value: int, index: nat, proofs: seq<R.Proof>, input: Input)
    requires proofs != [] && input.aliases != [] && OpenInput(cfg, s, input) && !RO.Marked(s.rec, R.RingKey(value, index), input.aliases[0])
    requires p == s.(rec := p.rec) && RO.Marks(s.rec, p.rec, R.RingKey(value, index), input.aliases[..1])
    ensures var r := ProcessInput(cfg, p, input, proofs, FromOutput(value, index));
      && (r.Some? <==> |proofs| == |input.aliases| && RestTaken(cfg, s, value, index, proofs, input))
      && (r.Some? ==> r.value == s.(rec := r.value.rec) && RO.Marks(s.rec, r.value.rec, KeyOf(input), input.aliases))
  {
    var k := R.RingKey(value, index);
    assert RO.Marked(p.rec, k, input.aliases[0]);
    if input.value == value && input.index == index {
      RestExactly(cfg, s, p, value, index, proofs, input);
    }
  }

  /** The fee destination gets the fee and the recipient the rest of what the aliases are worth. */
  lemma FromOutputAssetOutcome(cfg: Config, env: Env, s: State, value: int, index: nat, revision: nat, proofs: seq<R.Proof>, input: Input, to: Account)
    requires Amount(cfg.denom, cfg.denom.minExp) > 0
    ensures var t := Transact(cfg, env, s, AsUnloadFromOutput(value, index, revision, proofs), UnloadIntoAsset(input, to));
      if !AcceptedFromOutput(cfg, env, s, value, index, revision, proofs, input) then t == s
      else if |proofs| == |input.aliases| && RestTaken(cfg, s, value, index, proofs, input)
              && input.value in cfg.price && CoversWithFee(env, s, Total(cfg, input))
      then
        && t == s.(rec := t.rec, held := t.held, flow := t.flow)
        && RO.Marks(s.rec, t.rec, KeyOf(input), input.aliases)
        && Paid(s, t, to, Total(cfg, input) - env.fee.value, env.fee.value)
      else Penalised(cfg, s, t, value, index, input)
  {
    OpenIsSpendable(cfg, s, input);
    FromOutputPhases(cfg, env, s, value, index, revision, proofs, UnloadIntoAsset(input, to), input);
    if AcceptedFromOutput(cfg, env, s, value, index, revision, proofs, input) {
      Premarks(s, value, index, proofs, input);
      AssetDispatch(cfg, env, s, Prepare(s, UnloadToken(proofs, FromOutput(value, index))), value, index, proofs, input, to);
    }
  }

  /** The asset output: the fee first, then the rest to the recipient. */
  lemma OutputPaid(env: Env, s: State, to: Account, total: nat, value: int, index: nat)
    requires env.fee.Some?
    ensures var r := PayRecipient(env, s, to, total, FromOutput(value, index));
      && (r.Some? <==> CoversWithFee(env, s, total))
      && (r.Some? ==> r.value == s.(held := r.value.held, flow := r.value.flow) && Paid(s, r.value, to, total - env.fee.value, env.fee.value))
  {
  }

  lemma PrepaidPaid(env: Env, s: State, to: Account, total: nat)
    ensures var r := PayRecipient(env, s, to, total, Prepaid);
      && (r.Some? <==> Covers(env, s, total))
      && (r.Some? ==> r.value == s.(held := r.value.held, flow := r.value.flow) && Paid(s, r.value, to, total, 0))
  {
  }

  lemma AssetDispatch(cfg: Config, env: Env, s: State, p: State, value: int, index: nat, proofs: seq<R.Proof>, input: Input, to: Account)
    requires proofs != [] && input.aliases != [] && OpenInput(cfg, s, input) && !RO.Marked(s.rec, R.RingKey(value, index), input.aliases[0])
    requires p == s.(rec := p.rec) && RO.Marks(s.rec, p.rec, R.RingKey(value, index), input.aliases[..1]) && env.fee.Some?
    ensures var r := DispatchIntoAsset(cfg, env, p, input, proofs, FromOutput(value, index), to);
      && (r.Some? <==> |proofs| == |input.aliases| && RestTaken(cfg, s, value, index, proofs, input)
                       && input.value in cfg.price && CoversWithFee(env, s, Total(cfg, input)))
      && (r.Some? ==>
            && r.value == s.(rec := r.value.rec, held := r.value.held, flow := r.value.flow)
            && RO.Marks(s.rec, r.value.rec, KeyOf(input), input.aliases)
            && Paid(s, r.value, to, Total(cfg, input) - env.fee.value, env.fee.value))
  {
    ProcessedExactly(cfg, s, p, value, index, proofs, input);
    var q := ProcessInput(cfg, p, input, proofs, FromOutput(value, index));
    if q.Some? && input.value in cfg.price {
      OutputPaid(env, q.value, to, Total(cfg, input), value, index);
    }
  }

  // ---------------------------------------------------------------------------------------------
  // Asset output and vouchers
  // ---------------------------------------------------------------------------------------------

  lemma {:induction false} VoucherTotalExactly(cfg: Config, vouchers: seq<R.Voucher>)
    ensures VoucherTotal(cfg, vouchers).Some? <==>
      (forall i :: 0 <= i < |vouchers| ==> vouchers[i].value in cfg.price) && RL.VoucherValue(cfg.price, vouchers) <= cfg.maxBalance
    ensures VoucherTotal(cfg, vouchers).Some? ==> VoucherTotal(cfg, vouchers).value == RL.VoucherValue(cfg.price, vouchers)
    decreases |vouchers|
  {
    if vouchers != [] {
      var n := |vouchers| - 1;
      var front := vouchers[..n];
      assert forall i :: 0 <= i < n ==> front[i] == vouchers[i];
      VoucherTotalExactly(cfg, front);
    }
  }

  /** Usable keys, and outputs worth exactly what is unloaded. */
  ghost predicate MixedBalanced(cfg: Config, env: Env, s: State, input: Input, external: nat, vouchers: seq<R.Voucher>) {
    && input.aliases != [] && vouchers != [] && input.value in cfg.price
    && (forall i :: 0 <= i < |vouchers| ==>
          vouchers[i].value in cfg.price && vouchers[i].member !in s.rec.loaded && vouchers[i].member !in env.load.invalidKeys)
    && (forall i, j :: 0 <= i < j < |vouchers| ==> vouchers[i].member != vouchers[j].member)
    && external + RL.VoucherValue(cfg.price, vouchers) == cfg.price[input.value] * |input.aliases| <= cfg.maxBalance
  }

  lemma MixedOutputExactly(cfg: Config, env: Env, s: State, input: Input, external: nat, vouchers: seq<R.Voucher>)
    ensures MixedOutputOk(cfg, env, s, input, external, vouchers) <==> MixedBalanced(cfg, env, s, input, external, vouchers)
  {
    VoucherTotalExactly(cfg, vouchers);
  }

  /** Every value has its collection, or may get one, and the member service takes the keys. */
  ghost predicate CanQueue(env: Env, s: State, vouchers: seq<R.Voucher>) {
    env.load.addOk && forall i :: 0 <= i < |vouchers| ==> vouchers[i].value in s.rec.collections || env.load.createOk
  }

  /** The aliases are marked; every voucher waits at the end of the queue of its value, in order, and is recorded. */
  ghost predicate Exchanged(r: R.Storage, t: R.Storage, k: R.RingKey, aliases: seq<R.Alias>, vouchers: seq<R.Voucher>) {
    && t == r.(marks := t.marks, collections := t.collections, loaded := t.loaded)
    && RO.Marks(r, r.(marks := t.marks), k, aliases)
    && (forall v :: RO.QueueOf(t, v) == RO.QueueOf(r, v) + RM.MembersOf(vouchers, v) && RO.RingsOf(t, v) == RO.RingsOf(r, v))
    && RM.Recorded(r, t.loaded, vouchers)
  }

  /** Loading the vouchers after the aliases were marked. */
  lemma ExchangeExactly(env: Env, s: State, p: R.Storage, k: R.RingKey, aliases: seq<R.Alias>, vouchers: seq<R.Voucher>)
    requires RO.Marks(s.rec, p, k, aliases) && vouchers != []
    requires forall i :: 0 <= i < |vouchers| ==> vouchers[i].member !in s.rec.loaded && vouchers[i].member !in env.load.invalidKeys
    requires forall i, j :: 0 <= i < j < |vouchers| ==> vouchers[i].member != vouchers[j].member
    ensures var r := R.LoadGroupedSpec(env.load, p, vouchers);
      (r.Some? <==> CanQueue(env, s, vouchers)) && (r.Some? ==> Exchanged(s.rec, r.value, k, aliases, vouchers))
  {
    var r := R.LoadGroupedSpec(env.load, p, vouchers);
    RO.GroupedExactly(env.load, p, vouchers, 0);
    if r.Some? {
      forall v
        ensures RO.QueueOf(r.value, v) == RO.QueueOf(s.rec, v) + RM.MembersOf(vouchers, v) && RO.RingsOf(r.value, v) == RO.RingsOf(s.rec, v)
      {
        RO.GroupedExactly(env.load, p, vouchers, v);
      }
      assert s.rec.(marks := r.value.marks) == p;
    }
  }

  /** With a prepaid token: aliases become the asset output and the vouchers, to the unit, or nothing happens. */
  lemma PrepaidMixedOutcome(cfg: Config, env: Env, s: State, proofs: seq<R.Proof>, tokenOk: bool, input: Input, to: Account,
                            external: nat, vouchers: seq<R.Voucher>)
    requires Amount(cfg.denom, cfg.denom.minExp) > 0
    ensures var t := Transact(cfg, env, s, AsUnloadToken(proofs, tokenOk), UnloadMixed(input, to, external, vouchers));
      if Accepted(cfg, s, tokenOk, input) && MixedBalanced(cfg, env, s, input, external, vouchers) && Takes(cfg, s, input, proofs)
         && CanQueue(env, s, vouchers) && Covers(env, s, external)
      then
        && t == s.(rec := t.rec, held := t.held, flow := t.flow)
        && Exchanged(s.rec, t.rec, KeyOf(input), input.aliases, vouchers) && Paid(s, t, to, external, 0)
      else t == s
  {
    PrepaidPhases(cfg, env, s, proofs, tokenOk, UnloadMixed(input, to, external, vouchers));
    MixedOutputExactly(cfg, env, s, input, external, vouchers);
    TakesExactly(cfg, s, input, proofs);
    OpenIsSpendable(cfg, s, input);
    if MixedBalanced(cfg, env, s, input, external, vouchers) && Takes(cfg, s, input, proofs) {
      MixedUnload(cfg, env, s, proofs, input, to, external, vouchers);
    }
  }

  lemma MixedUnload(cfg: Config, env: Env, s: State, proofs: seq<R.Proof>, input: Input, to: Account, external: nat, vouchers: seq<R.Voucher>)
    requires MixedBalanced(cfg, env, s, input, external, vouchers) && Takes(cfg, s, input, proofs)
    ensures var r := DispatchMixed(cfg, env, s, input, proofs, Prepaid, to, external, vouchers);
      && (r.Some? <==> CanQueue(env, s, vouchers) && Covers(env, s, external))
      && (r.Some? ==>
            && r.value == s.(rec := r.value.rec, held := r.value.held, flow := r.value.flow)
            && Exchanged(s.rec, r.value.rec, KeyOf(input), input.aliases, vouchers) && Paid(s, r.value, to, external, 0))
  {
    MixedOutputExactly(cfg, env, s, input, external, vouchers);
    TakesExactly(cfg, s, input, proofs);
    var q := Unload(cfg, s, input, proofs).value;
    ExchangeExactly(env, s, q.rec, KeyOf(input), input.aliases, vouchers);
    var r := R.LoadGroupedSpec(env.load, q.rec, vouchers);
    if r.Some? {
      PrepaidPaid(env, q.(rec := r.value), to, external);
    }
  }

  lemma MixedDispatch(cfg: Config, env: Env, s: State, p: State, value: int, index: nat, proofs: seq<R.Proof>, input: Input, to: Account,
                      external: nat, vouchers: seq<R.Voucher>)
    requires proofs != [] && input.aliases != [] && OpenInput(cfg, s, input) && !RO.Marked(s.rec, R.RingKey(value, index), input.aliases[0])
    requires p == s.(rec := p.rec) && RO.Marks(s.rec, p.rec, R.RingKey(value, index), input.aliases[..1]) && env.fee.Some?
    requires MixedBalanced(cfg, env, s, input, external, vouchers) && env.fee.value <= external
    ensures var r := DispatchMixed(cfg, env, p, input, proofs, FromOutput(value, index), to, external, vouchers);
      && (r.Some? <==> |proofs| == |input.aliases| && RestTaken(cfg, s, value, index, proofs, input)
                       && CanQueue(env, s, vouchers) && CoversWithFee(env, s, external))
      && (r.Some? ==>
            && r.value == s.(rec := r.value.rec, held := r.value.held, flow := r.value.flow)
            && Exchanged(s.rec, r.value.rec, KeyOf(input), input.aliases, vouchers)
            && Paid(s, r.value, to, external - env.fee.value, env.fee.value))
  {
    MixedOutputExactly(cfg, env, p, input, external, vouchers);
    ProcessedExactly(cfg, s, p, value, index, proofs, input);
    var q := ProcessInput(cfg, p, input, proofs, FromOutput(value, index));
    if q.Some? {
      ExchangeExactly(env, s, q.value.rec, KeyOf(input), input.aliases, vouchers);
      var r := R.LoadGroupedSpec(env.load, q.value.rec, vouchers);
      if r.Some? {
        OutputPaid(env, q.value.(rec := r.value), to, external, value, index);
      }
    }
  }

  /** With the fee from the output: the fee destination gets the fee out of the asset output. */
  lemma FromOutputMixedOutcome(cfg: Config, env: Env, s: State, value: int, index: nat, revision: nat, proofs: seq<R.Proof>, input: Input,
                               to: Account, external: nat, vouchers: seq<R.Voucher>)
    requires Amount(cfg.denom, cfg.denom.minExp) > 0
    ensures var t := Transact(cfg, env, s, AsUnloadFromOutput(value, index, revision, proofs), UnloadMixed(input, to, external, vouchers));
      if !(AcceptedFromOutput(cfg, env, s, value, index, revision, proofs, input)
           && MixedBalanced(cfg, env, s, input, external, vouchers) && env.fee.value <= external)
      then t == s
      else if |proofs| == |input.aliases| && RestTaken(cfg, s, value, index, proofs, input)
              && CanQueue(env, s, vouchers) && CoversWithFee(env, s, external)
      then
        && t == s.(rec := t.rec, held := t.held, flow := t.flow)
        && Exchanged(s.rec, t.rec, KeyOf(input), input.aliases, vouchers)
        && Paid(s, t, to, external - env.fee.value, env.fee.value)
      else Penalised(cfg, s, t, value, index, input)
  {
    var call := UnloadMixed(input, to, external, vouchers);
    OpenIsSpendable(cfg, s, input);
    MixedOutputExactly(cfg, env, s, input, external, vouchers);
    FromOutputPhases(cfg, env, s, value, index, revision, proofs, call, input);
    if AcceptedFromOutput(cfg, env, s, value, index, revision, proofs, input)
       && MixedBalanced(cfg, env, s, input, external, vouchers) && env.fee.value <= external
    {
      Premarks(s, value, index, proofs, input);
      MixedDispatch(cfg, env, s, Prepare(s, UnloadToken(proofs, FromOutput(value, index))), value, index, proofs, input, to, external, vouchers);
    }
  }

  // ---------------------------------------------------------------------------------------------
  // Coin output
  // ---------------------------------------------------------------------------------------------

  ghost predicate FreeOutputs(cfg: Config, s: State, into: seq<Group>) {
    && (forall i :: 0 <= i < |into| ==> into[i].dests != [])
    && |Dests(into)| <= cfg.maxSplit && forall i :: 0 <= i < |Dests(into)| ==> Dests(into)[i] !in s.coins
  }

  /** The outputs and the fee cap, counted in minimum coins, are the aliases unloaded. */
  ghost predicate UnitsBalance(cfg: Config, s: State, input: Input, into: seq<Group>, maxFee: nat)
    requires Amount(cfg.denom, cfg.denom.minExp) > 0
  {
    && input.aliases != [] && 0 <= input.value - cfg.denom.minExp < 32
    && var unit, least := Pow2(input.value - cfg.denom.minExp), Amount(cfg.denom, cfg.denom.minExp);
       && unit * |input.aliases| <= U32_MAX && maxFee % least == 0 && Min(maxFee / least, U32_MAX) <= unit * |input.aliases|
       && ValidSplit(cfg.denom, cfg.maxSplit, s.coins.Keys, unit * |input.aliases| - Min(maxFee / least, U32_MAX), into)
  }

  lemma UnitsExactly(cfg: Config, s: State, input: Input, into: seq<Group>, maxFee: nat)
    requires Amount(cfg.denom, cfg.denom.minExp) > 0
    ensures UnitsBalance(cfg, s, input, into, maxFee) <==>
      && input.aliases != [] && ExpectedUnits(cfg.denom, input.value, |input.aliases|, maxFee).Ok?
      && ValidSplitExec(cfg.denom, cfg.maxSplit, s.coins.Keys, ExpectedUnits(cfg.denom, input.value, |input.aliases|, maxFee).value, into)
    ensures UnitsBalance(cfg, s, input, into, maxFee) ==> Minted(s.coins, Mint(s.coins, Outputs(into), 1), into, 1)
  {
    if UnitsBalance(cfg, s, input, into, maxFee) {
      SplitIsFresh(cfg.denom, cfg.maxSplit, s.coins, ExpectedUnits(cfg.denom, input.value, |input.aliases|, maxFee).value, into);
      MintExactly(s.coins, into, 1);
    }
  }

  /** With a prepaid token: the aliases become the coins named, each used once, or nothing happens. */
  lemma PrepaidCoinsOutcome(cfg: Config, env: Env, s: State, proofs: seq<R.Proof>, tokenOk: bool, input: Input, into: seq<Group>, maxFee: nat)
    requires Amount(cfg.denom, cfg.denom.minExp) > 0
    ensures var t := Transact(cfg, env, s, AsUnloadToken(proofs, tokenOk), UnloadIntoCoins(input, into, maxFee));
      if Accepted(cfg, s, tokenOk, input) && maxFee == 0 && FreeOutputs(cfg, s, into) && UnitsBalance(cfg, s, input, into, maxFee)
         && Takes(cfg, s, input, proofs)
      then
        && t == s.(coins := t.coins, rec := t.rec)
        && Minted(s.coins, t.coins, into, 1) && RO.Marks(s.rec, t.rec, KeyOf(input), input.aliases)
      else t == s
  {
    PrepaidPhases(cfg, env, s, proofs, tokenOk, UnloadIntoCoins(input, into, maxFee));
    UnitsExactly(cfg, s, input, into, maxFee);
    TakesExactly(cfg, s, input, proofs);
    OpenIsSpendable(cfg, s, input);
    GroupsIndexed(into);
  }

  lemma GroupsIndexed(into: seq<Group>)
    ensures (forall g :: g in into ==> g.dests != []) <==> (forall i :: 0 <= i < |into| ==> into[i].dests != [])
  {
    assert forall i :: 0 <= i < |into| ==> into[i] in into;
  }

  /** What the fee cap covers: the fee destination gets the fee, and the rest of the cap is destroyed. */
  ghost predicate FeeAndChange(cfg: Config, s: State, t: State, fee: nat, maxFee: nat)
    requires fee <= maxFee
  {
    && t.held == s.held - fee && t.flow == s.flow.(fees := s.flow.fees + fee)
    && t.destroyed == if maxFee == fee then s.destroyed else Min(cfg.maxBalance, s.destroyed + (maxFee - fee))
  }

  lemma CoinsDispatch(cfg: Config, env: Env, s: State, p: State, value: int, index: nat, proofs: seq<R.Proof>, input: Input,
                      into: seq<Group>, maxFee: nat)
    requires Amount(cfg.denom, cfg.denom.minExp) > 0
    requires proofs != [] && input.aliases != [] && OpenInput(cfg, s, input) && !RO.Marked(s.rec, R.RingKey(value, index), input.aliases[0])
    requires p == s.(rec := p.rec) && RO.Marks(s.rec, p.rec, R.RingKey(value, index), input.aliases[..1])
    requires env.fee.Some? && env.fee.value <= maxFee
    ensures var r := DispatchIntoCoins(cfg, env, p, input, proofs, FromOutput(value, index), into, maxFee);
      && (r.Some? <==> UnitsBalance(cfg, s, input, into, maxFee) && RestTaken(cfg, s, value, index, proofs, input)
                       && env.feeOk && env.fee.value <= s.held)
      && (r.Some? ==>
            && r.value == s.(coins := r.value.coins, rec := r.value.rec, held := r.value.held, destroyed := r.value.destroyed, flow := r.value.flow)
            && Minted(s.coins, r.value.coins, into, 1) && RO.Marks(s.rec, r.value.rec, KeyOf(input), input.aliases)
            && FeeAndChange(cfg, s, r.value, env.fee.value, maxFee))
  {
    UnitsExactly(cfg, p, input, into, maxFee);
    assert UnitsBalance(cfg, p, input, into, maxFee) <==> UnitsBalance(cfg, s, input, into, maxFee);
    ForCoinsExactly(cfg, env, s, p, value, index, proofs, input, maxFee);
  }

  lemma ForCoinsExactly(cfg: Config, env: Env, s: State, p: State, value: int, index: nat, proofs: seq<R.Proof>, input: Input, maxFee: nat)
    requires proofs != [] && input.aliases != [] && OpenInput(cfg, s, input) && !RO.Marked(s.rec, R.RingKey(value, index), input.aliases[0])
    requires p == s.(rec := p.rec) && RO.Marks(s.rec, p.rec, R.RingKey(value, index), input.aliases[..1])
    requires env.fee.Some? && env.fee.value <= maxFee
    ensures var r := ProcessForCoins(cfg, env, p, input, proofs, FromOutput(value, index), maxFee);
      && (r.Some? <==> RestTaken(cfg, s, value, index, proofs, input) && env.feeOk && env.fee.value <= s.held)
      && (r.Some? ==>
            && r.value == s.(rec := r.value.rec, held := r.value.held, destroyed := r.value.destroyed, flow := r.value.flow)
            && RO.Marks(s.rec, r.value.rec, KeyOf(input), input.aliases)
            && FeeAndChange(cfg, s, r.value, env.fee.value, maxFee))
  {
    assert RO.Marked(p.rec, R.RingKey(value, index), input.aliases[0]);
    if input.value == value && input.index == index {
      RestExactly(cfg, s, p, value, index, proofs, input);
    }
  }

  /** With the fee from the output: exactly the fee leaves the hold, and the unused part of the cap is destroyed. */
  lemma FromOutputCoinsOutcome(cfg: Config, env: Env, s: State, value: int, index: nat, revision: nat, proofs: seq<R.Proof>, input: Input,
                               into: seq<Group>, maxFee: nat)
    requires Amount(cfg.denom, cfg.denom.minExp) > 0
    ensures var t := Transact(cfg, env, s, AsUnloadFromOutput(value, index, revision, proofs), UnloadIntoCoins(input, into, maxFee));
      if !(AcceptedFromOutput(cfg, env, s, value, index, revision, proofs, input)
           && maxFee <= cfg.maxBalance && env.fee.value <= maxFee && FreeOutputs(cfg, s, into))
      then t == s
      else if UnitsBalance(cfg, s, input, into, maxFee) && RestTaken(cfg, s, value, index, proofs, input) && env.feeOk && env.fee.value <= s.held
      then
        && t == s.(coins := t.coins, rec := t.rec, held := t.held, destroyed := t.destroyed, flow := t.flow)
        && Minted(s.coins, t.coins, into, 1) && RO.Marks(s.rec, t.rec, KeyOf(input), input.aliases)
        && FeeAndChange(cfg, s, t, env.fee.value, maxFee)
      else Penalised(cfg, s, t, value, index, input)
  {
    OpenIsSpendable(cfg, s, input);
    GroupsIndexed(into);
    FromOutputPhases(cfg, env, s, value, index, revision, proofs, UnloadIntoCoins(input, into, maxFee), input);
    if AcceptedFromOutput(cfg, env, s, value, index, revision, proofs, input) && env.fee.value <= maxFee {
      Premarks(s, value, index, proofs, input);
      CoinsDispatch(cfg, env, s, Prepare(s, UnloadToken(proofs, FromOutput(value, index))), value, index, proofs, input, into, maxFee);
    }
  }
}
