/**
  The coinage transaction (`pallets/coinage/src/lib.rs`, `pallets/coinage/src/extension.rs`): what
  `validate`, `prepare`, dispatch and `post_dispatch` make of the pallet storage. Dispatch returns
  `None` for every error, and a failed dispatch is rolled back.

  Asset transfers, the price feed behind the unload fee, key signatures and the member service may
  refuse at any point; `Env` carries their answers, so every statement below holds for all of them.
*/
module Coinage {
  import opened Prelude
  import opened Powers
  import opened Denomination
  import opened SplitValidation
  import opened CoinLedger
  import R = Recyclers

  /** `price` tabulates `coin_value_to_asset_amount` over the valid exponents. */
  datatype Config = Config(
    denom: Denom, price: map<int, nat>, maxBalance: nat, maxSplit: nat, maxConsolidation: nat,
    maxAge: nat, minFeeExp: int, expiry: nat, lockBase: nat)

  /**
    `integrity_test`, plus the bounds the configuration types impose. The last condition on
    `MaxConsolidation` is exactly what the fee arithmetic needs (`Denomination.UnloadsBalanceIff`).
  */
  ghost predicate ConfigOk(cfg: Config) {
    && Integrity(cfg.denom)
    && (forall v :: v in cfg.price <==> InRange(cfg.denom, v))
    && (forall v :: v in cfg.price ==> cfg.price[v] == Amount(cfg.denom, v))
    && cfg.maxBalance == Pow2(cfg.denom.bits) - 1
    && 2 <= cfg.maxSplit <= U32_MAX
    && 0 < cfg.maxConsolidation <= U32_MAX
    && (cfg.maxConsolidation < U32_MAX || cfg.maxBalance < 0x1_0000_0000 * Amount(cfg.denom, cfg.denom.minExp))
    && 1 <= cfg.maxAge <= U16_MAX
    && InRange(cfg.denom, cfg.minFeeExp)
  }

  datatype Lock = Lock(retries: nat, until: nat)

  /** Movements of the held asset: what users put in, and what accounts and the fee destination got out of it. */
  datatype Flow = Flow(deposits: nat, received: map<Account, nat>, fees: nat)

  datatype State = State(
    now: nat, coins: Coins, locked: map<Account, Lock>, destroyed: nat, held: nat, rec: R.Storage, flow: Flow)

  /** Answers of the outside world during one transaction. */
  datatype Env = Env(
    fee: Option<nat>,       // paid_unload_token_fee_in_asset
    feeOk: bool,            // the fee transfer goes through
    payOk: bool,            // the other asset transfer goes through
    load: R.LoadEnv,
    ownsKey: bool,          // proof_of_ownership verifies
    tokenMemberOk: bool,    // the paid-token ring accepts the member key
    removeOk: bool)         // the member service removes the ring

  datatype Input = Input(value: int, index: nat, revision: nat, aliases: seq<R.Alias>)

  datatype Call =
    | Split(into: seq<Group>)
    | Transfer(to: Account)
    | LoadCoin(member: R.Member)
    | PayTokenWithCoin
    | Offboard(to: Account)
    | LoadExternal(value: int, member: R.Member)
    | LoadUnpaid(items: seq<R.Voucher>)
    | UnloadIntoCoin(input: Input, to: Account)
    | UnloadIntoAsset(input: Input, to: Account)
    | UnloadMixed(input: Input, to: Account, external: nat, vouchers: seq<R.Voucher>)
    | UnloadIntoCoins(input: Input, into: seq<Group>, maxFee: nat)
    | UnloadSigned(inputs: seq<Input>, proofs: seq<R.Proof>, to: Account)
    | CleanRecycler(value: int)
    | CleanRecyclerDust(key: R.RingKey, batch: set<R.Alias>)

  datatype FeeMode = Prepaid | FromOutput(value: int, index: nat)

  datatype Origin =
    | Signed(who: Account)
    | CoinOrigin(owner: Account, coin: Coin)
    | UnloadToken(proofs: seq<R.Proof>, fee: FeeMode)
    | InfallibleUnpaid(who: Account)
    | Authorized

  /**
    The extension a transaction carries. `tokenOk` is the outcome of the unload-token checks
    (`FreeTokens` and `PaidTokens`, joined in `CoinageTokens`), `accepted` that of the unpaid batch
    (`UnpaidBatch`, joined in `CoinageUnpaid`).
  */
  datatype Extension =
    | NoExtension(who: Account)
    | AsCoin(who: Account)
    | AsUnloadToken(proofs: seq<R.Proof>, tokenOk: bool)
    | AsUnloadFromOutput(value: int, index: nat, revision: nat, proofs: seq<R.Proof>)
    | AsInfallibleUnpaid(who: Account, accepted: bool)
    | LocalAuthorized

  function PriceOf(cfg: Config, v: int): Option<nat> {
    if v in cfg.price then Some(cfg.price[v]) else None
  }

  // ---------------------------------------------------------------------------------------------
  // Held balance
  // ---------------------------------------------------------------------------------------------

  function Received(f: Flow, a: Account): nat {
    if a in f.received then f.received[a] else 0
  }

  function Credit(f: Flow, to: Account, amount: nat): Flow {
    f.(received := f.received[to := Received(f, to) + amount])
  }

  /** `transfer_external_asset`: `transfer_on_hold` with exact precision out of the pallet account. */
  function PayOut(env: Env, s: State, to: Account, amount: nat): Option<State> {
    if amount == 0 then Some(s)
    else if !env.payOk || s.held < amount then None
    else Some(s.(held := s.held - amount, flow := Credit(s.flow, to, amount)))
  }

  /** The fee destination gets the fee. */
  function PayFee(s: State, fee: nat): State
    requires fee <= s.held
  {
    s.(held := s.held - fee, flow := s.flow.(fees := s.flow.fees + fee))
  }

  /** `deduct_and_transfer_fee`: the new state and what is left of `total`. */
  function DeductFee(env: Env, s: State, total: nat): Option<(State, nat)> {
    if env.fee.None? || total < env.fee.value then None
    else if !env.feeOk || s.held < env.fee.value then None
    else Some((PayFee(s, env.fee.value), total - env.fee.value))
  }

  /** `transfer_and_hold` from a user into the pallet account. */
  function TakeIn(cfg: Config, env: Env, s: State, amount: nat): Option<State> {
    if !env.payOk || s.held + amount > cfg.maxBalance then None
    else Some(s.(held := s.held + amount, flow := s.flow.(deposits := s.flow.deposits + amount)))
  }

  function Destroy(cfg: Config, s: State, amount: nat): State {
    s.(destroyed := SatAdd(s.destroyed, amount, cfg.maxBalance))
  }

  // ---------------------------------------------------------------------------------------------
  // Calls made with a coin
  // ---------------------------------------------------------------------------------------------

  function DispatchSplit(s: State, coin: Coin, into: seq<Group>): Option<State> {
    Some(s.(coins := Mint(s.coins, Outputs(into), SatAdd(coin.age, 1, U16_MAX))))
  }

  function DispatchTransfer(s: State, coin: Coin, to: Account): Option<State> {
    Some(s.(coins := s.coins[to := Coin(coin.value, SatAdd(coin.age, 1, U16_MAX))]))
  }

  function DispatchLoadCoin(env: Env, s: State, coin: Coin, member: R.Member): Option<State> {
    match R.LoadSpec(env.load, s.rec, coin.value, member)
    case Ok(rec) => Some(s.(rec := rec))
    case Err(_) => None
  }

  function DispatchPayToken(cfg: Config, env: Env, s: State, coin: Coin): Option<State> {
    match PriceOf(cfg, coin.value)
    case None => None
    case Some(amount) =>
      if env.fee.None? || amount < env.fee.value then None
      else if s.held < env.fee.value || !env.feeOk then None
      else if !env.tokenMemberOk then None
      else Some(Destroy(cfg, PayFee(s, env.fee.value), amount - env.fee.value))
  }

  function DispatchOffboard(cfg: Config, env: Env, s: State, coin: Coin, to: Account): Option<State> {
    match PriceOf(cfg, coin.value)
    case None => None
    case Some(amount) => if coin.age != 0 then None else PayOut(env, s, to, amount)
  }

  // ---------------------------------------------------------------------------------------------
  // Loading external assets
  // ---------------------------------------------------------------------------------------------

  /** The transfer and the load shared by the signed and the unpaid variants. */
  function LoadOne(cfg: Config, env: Env, s: State, v: int, member: R.Member): Option<State> {
    match PriceOf(cfg, v)
    case None => None
    case Some(amount) =>
      match TakeIn(cfg, env, s, amount)
      case None => None
      case Some(t) =>
        match R.LoadSpec(env.load, t.rec, v, member)
        case Ok(rec) => Some(t.(rec := rec))
        case Err(_) => None
  }

  function DispatchLoadUnpaid(cfg: Config, env: Env, s: State, items: seq<R.Voucher>): Option<State>
    decreases |items|
  {
    if items == [] then Some(s)
    else
      match DispatchLoadUnpaid(cfg, env, s, items[..|items| - 1])
      case None => None
      case Some(t) => LoadOne(cfg, env, t, items[|items| - 1].value, items[|items| - 1].member)
  }

  // ---------------------------------------------------------------------------------------------
  // Unloading
  // ---------------------------------------------------------------------------------------------

  function Unload(cfg: Config, s: State, input: Input, proofs: seq<R.Proof>): Option<State> {
    match R.UnloadSpec(s.rec, s.now, cfg.expiry, input.value, input.index, input.revision, input.aliases, proofs)
    case None => None
    case Some(rec) => Some(s.(rec := rec))
  }

  /** The extension must have marked the first alias of the call in the fee ring. */
  predicate Premarked(s: State, input: Input, fee: FeeMode)
    requires fee.FromOutput?
  {
    && input.value == fee.value && input.index == fee.index
    && input.aliases != []
    && input.aliases[0] in R.MarksOf(s.rec.marks, R.RingKey(fee.value, fee.index))
  }

  /** Aliases after the premarked one. */
  function Rest(input: Input): Input
    requires input.aliases != []
  {
    input.(aliases := input.aliases[1..])
  }

  /** `process_unload_inputs_with_fee` for one input. */
  function ProcessInput(cfg: Config, s: State, input: Input, proofs: seq<R.Proof>, fee: FeeMode): Option<State> {
    match fee
    case Prepaid => Unload(cfg, s, input, proofs)
    case FromOutput(_, _) =>
      if !Premarked(s, input, fee) || |proofs| != |input.aliases| then None
      else if |input.aliases| == 1 then Some(s)
      else Unload(cfg, s, Rest(input), proofs[1..])
  }

  function IsPowerOfTwo(n: nat): bool {
    n == 1 || (n > 1 && n % 2 == 0 && IsPowerOfTwo(n / 2))
  }

  function TrailingZeros(n: nat): nat {
    if n == 0 || n % 2 == 1 then 0 else 1 + TrailingZeros(n / 2)
  }

  function DispatchIntoCoin(cfg: Config, s: State, input: Input, proofs: seq<R.Proof>, fee: FeeMode, to: Account): Option<State> {
    if fee != Prepaid || input.aliases == [] || !IsPowerOfTwo(|input.aliases|) then None
    else
      match Unload(cfg, s, input, proofs)
      case None => None
      case Some(t) =>
        var value := input.value + TrailingZeros(|input.aliases|);
        if value > cfg.denom.maxExp then None
        else Some(t.(coins := t.coins[to := Coin(value, 0)]))
  }

  function DispatchIntoAsset(cfg: Config, env: Env, s: State, input: Input, proofs: seq<R.Proof>, fee: FeeMode, to: Account): Option<State> {
    match PriceOf(cfg, input.value)
    case None => None
    case Some(amount) =>
      var total := SatMul(amount, |input.aliases|, cfg.maxBalance);
      match ProcessInput(cfg, s, input, proofs, fee)
      case None => None
      case Some(t) => PayRecipient(env, t, to, total, fee)
  }

  /** The asset output: whole when the fee was prepaid, reduced by the fee otherwise. */
  function PayRecipient(env: Env, s: State, to: Account, total: nat, fee: FeeMode): Option<State> {
    if fee.Prepaid? then PayOut(env, s, to, total)
    else
      match DeductFee(env, s, total)
      case None => None
      case Some(p) => PayOut(env, p.0, to, p.1)
  }

  /** The voucher total of `validate_mixed_output_outputs`, failing on a bad value or an overflow. */
  function VoucherTotal(cfg: Config, vouchers: seq<R.Voucher>): Option<nat>
    decreases |vouchers|
  {
    if vouchers == [] then Some(0)
    else
      var n := |vouchers| - 1;
      match (VoucherTotal(cfg, vouchers[..n]), PriceOf(cfg, vouchers[n].value))
      case (Some(sum), Some(amount)) => if sum + amount <= cfg.maxBalance then Some(sum + amount) else None
      case _ => None
  }

  /** `validate_mixed_output_outputs`. */
  predicate MixedOutputOk(cfg: Config, env: Env, s: State, input: Input, external: nat, vouchers: seq<R.Voucher>) {
    && input.aliases != [] && vouchers != []
    && PriceOf(cfg, input.value).Some?
    && cfg.price[input.value] * |input.aliases| <= cfg.maxBalance
    && R.FreshVouchers(env.load, s.rec, vouchers)
    && VoucherTotal(cfg, vouchers).Some?
    && external + VoucherTotal(cfg, vouchers).value <= cfg.maxBalance
    && external + VoucherTotal(cfg, vouchers).value == cfg.price[input.value] * |input.aliases|
  }

  function DispatchMixed(cfg: Config, env: Env, s: State, input: Input, proofs: seq<R.Proof>, fee: FeeMode, to: Account,
                         external: nat, vouchers: seq<R.Voucher>): Option<State>
  {
    if !MixedOutputOk(cfg, env, s, input, external, vouchers) then None
    else if fee.FromOutput? && (env.fee.None? || external < env.fee.value) then None
    else
      match ProcessInput(cfg, s, input, proofs, fee)
      case None => None
      case Some(t) =>
        match R.LoadGroupedSpec(env.load, t.rec, vouchers)
        case None => None
        case Some(rec) => PayRecipient(env, t.(rec := rec), to, external, fee)
  }

  /** The alias processing of `unload_recycler_into_coins`; proofs left over after a lone alias are ignored. */
  function ProcessForCoins(cfg: Config, env: Env, s: State, input: Input, proofs: seq<R.Proof>, fee: FeeMode, maxFee: nat): Option<State> {
    match fee
    case Prepaid => Unload(cfg, s, input, proofs)
    case FromOutput(_, _) =>
      if !Premarked(s, input, fee) || proofs == [] then None
      else
        match (if |input.aliases| == 1 then Some(s) else Unload(cfg, s, Rest(input), proofs[1..]))
        case None => None
        case Some(t) =>
          match DeductFee(env, t, maxFee)
          case None => None
          case Some(p) => Some(if p.1 > 0 then Destroy(cfg, p.0, p.1) else p.0)
  }

  function DispatchIntoCoins(cfg: Config, env: Env, s: State, input: Input, proofs: seq<R.Proof>, fee: FeeMode,
                             into: seq<Group>, maxFee: nat): Option<State>
    requires Amount(cfg.denom, cfg.denom.minExp) > 0
  {
    if fee == Prepaid && maxFee != 0 then None
    else if input.aliases == [] then None
    else
      match ExpectedUnits(cfg.denom, input.value, |input.aliases|, maxFee)
      case Err(_) => None
      case Ok(units) =>
        if !ValidSplitExec(cfg.denom, cfg.maxSplit, s.coins.Keys, units, into) then None
        else
          match ProcessForCoins(cfg, env, s, input, proofs, fee, maxFee)
          case None => None
          case Some(t) => Some(t.(coins := Mint(t.coins, Outputs(into), 1)))
  }

  /** `ValidSplit` as a computable condition. */
  predicate ValidSplitExec(d: Denom, maxOutputs: nat, occupied: set<Account>, expected: nat, split: seq<Group>)
    ensures ValidSplitExec(d, maxOutputs, occupied, expected, split) <==> ValidSplit(d, maxOutputs, occupied, expected, split)
  {
    && GroupsInRange(d, split)
    && ValuesAscend(split)
    && |Dests(split)| <= maxOutputs
    && TotalUnits(d, split) == expected
    && NoneOccupied(occupied, Dests(split))
    && Distinct(Dests(split))
  }

  function SignedTotal(cfg: Config, inputs: seq<Input>): Option<nat>
    decreases |inputs|
  {
    if inputs == [] then Some(0)
    else
      var n := |inputs| - 1;
      match (SignedTotal(cfg, inputs[..n]), PriceOf(cfg, inputs[n].value))
      case (Some(sum), Some(amount)) =>
        if inputs[n].aliases == [] then None
        else Some(SatAdd(sum, SatMul(amount, |inputs[n].aliases|, cfg.maxBalance), cfg.maxBalance))
      case _ => None
  }

  /** `process_unload_inputs`: inputs take their proofs in order, and no proof may be left over. */
  function ProcessInputs(cfg: Config, s: State, inputs: seq<Input>, proofs: seq<R.Proof>): Option<State>
    decreases |inputs|
  {
    if inputs == [] then (if proofs == [] then Some(s) else None)
    else
      var n := |inputs| - 1;
      var own := |inputs[n].aliases|;
      if |proofs| < own then None
      else
        match ProcessInputs(cfg, s, inputs[..n], proofs[..|proofs| - own])
        case None => None
        case Some(t) => Unload(cfg, t, inputs[n], proofs[|proofs| - own..])
  }

  function DispatchSigned(cfg: Config, env: Env, s: State, inputs: seq<Input>, proofs: seq<R.Proof>, to: Account): Option<State> {
    if inputs == [] then None
    else
      match SignedTotal(cfg, inputs)
      case None => None
      case Some(total) =>
        match ProcessInputs(cfg, s, inputs, proofs)
        case None => None
        case Some(t) => if !env.feeOk then None else PayOut(env, t, to, total)
  }

  // ---------------------------------------------------------------------------------------------
  // Maintenance
  // ---------------------------------------------------------------------------------------------

  predicate CleanInBounds(s: State, v: int) {
    v in s.rec.collections && R.NextToClean(s.rec.lastRemoved, v) < |s.rec.collections[v].rings|
  }

  function DispatchClean(cfg: Config, env: Env, s: State, v: int): Option<State> {
    if !CleanInBounds(s, v) || !env.removeOk then None
    else
      match PriceOf(cfg, v)
      case None => None
      case Some(amount) =>
        var lost := amount * R.RemainingCoins(s.rec, v);
        if lost > cfg.maxBalance || s.destroyed + lost > cfg.maxBalance then None
        else Some(s.(rec := R.Clean(s.rec, v), destroyed := s.destroyed + lost))
  }

  /** `DispatchResult` of every call; a call under the wrong origin is `BadOrigin`. */
  function Dispatch(cfg: Config, env: Env, s: State, call: Call, origin: Origin): Option<State>
    requires Amount(cfg.denom, cfg.denom.minExp) > 0
  {
    match (call, origin)
    case (Split(into), CoinOrigin(_, coin)) => DispatchSplit(s, coin, into)
    case (Transfer(to), CoinOrigin(_, coin)) => DispatchTransfer(s, coin, to)
    case (LoadCoin(member), CoinOrigin(_, coin)) => DispatchLoadCoin(env, s, coin, member)
    case (PayTokenWithCoin, CoinOrigin(_, coin)) => DispatchPayToken(cfg, env, s, coin)
    case (Offboard(to), CoinOrigin(_, coin)) => DispatchOffboard(cfg, env, s, coin, to)
    case (LoadExternal(v, member), Signed(_)) => if env.ownsKey then LoadOne(cfg, env, s, v, member) else None
    case (LoadUnpaid(items), InfallibleUnpaid(_)) => DispatchLoadUnpaid(cfg, env, s, items)
    case (UnloadIntoCoin(input, to), UnloadToken(proofs, fee)) => DispatchIntoCoin(cfg, s, input, proofs, fee, to)
    case (UnloadIntoAsset(input, to), UnloadToken(proofs, fee)) => DispatchIntoAsset(cfg, env, s, input, proofs, fee, to)
    case (UnloadMixed(input, to, external, vouchers), UnloadToken(proofs, fee)) =>
      DispatchMixed(cfg, env, s, input, proofs, fee, to, external, vouchers)
    case (UnloadIntoCoins(input, into, maxFee), UnloadToken(proofs, fee)) =>
      DispatchIntoCoins(cfg, env, s, input, proofs, fee, into, maxFee)
    case (UnloadSigned(inputs, proofs, to), Signed(_)) => DispatchSigned(cfg, env, s, inputs, proofs, to)
    case (CleanRecycler(v), Authorized) => DispatchClean(cfg, env, s, v)
    case (CleanRecyclerDust(k, batch), Authorized) => Some(s.(rec := R.CleanDust(s.rec, k, batch)))
    case _ => None
  }

  // ---------------------------------------------------------------------------------------------
  // Validation
  // ---------------------------------------------------------------------------------------------

  predicate Unlocked(s: State, who: Account) {
    who in s.locked ==> s.now >= s.locked[who].until
  }

  /** The per-call checks of `AsCoin`. */
  predicate CoinCallOk(cfg: Config, env: Env, s: State, who: Account, coin: Coin, call: Call) {
    match call
    case Split(into) =>
      && coin.age < cfg.maxAge
      && CoinUnit(cfg.denom, coin.value).Some?
      && ValidSplitExec(cfg.denom, cfg.maxSplit, s.coins.Keys, CoinUnit(cfg.denom, coin.value).value, into)
    case Transfer(to) => coin.age < cfg.maxAge && to !in s.coins
    case Offboard(_) => coin.age == 0 && coin.value in cfg.price
    case LoadCoin(member) =>
      && member !in s.rec.loaded && member !in env.load.invalidKeys && env.ownsKey
      && coin.value in s.rec.collections
    case PayTokenWithCoin =>
      && coin.age < cfg.maxAge && coin.value in cfg.price
      && env.fee.Some? && cfg.price[coin.value] >= env.fee.value && env.tokenMemberOk
    case _ => false
  }

  predicate InputSpendable(cfg: Config, s: State, input: Input) {
    R.Spendable(s.rec, s.now, cfg.expiry, input.value, input.index, input.revision)
  }

  /** `validate_unload_calls`. */
  predicate UnloadCallOk(cfg: Config, env: Env, s: State, call: Call, fee: FeeMode) {
    match call
    case UnloadIntoCoin(input, to) => fee.Prepaid? && InputSpendable(cfg, s, input) && to !in s.coins
    case UnloadIntoAsset(input, _) => InputSpendable(cfg, s, input) && (fee.FromOutput? ==> env.fee.Some?)
    case UnloadMixed(input, _, external, vouchers) =>
      && InputSpendable(cfg, s, input)
      && MixedOutputOk(cfg, env, s, input, external, vouchers)
      && (fee.FromOutput? ==> env.fee.Some? && external >= env.fee.value)
    case UnloadIntoCoins(input, into, maxFee) =>
      && InputSpendable(cfg, s, input)
      && (forall g :: g in into ==> g.dests != [])
      && |Dests(into)| <= cfg.maxSplit
      && NoneOccupied(s.coins.Keys, Dests(into))
      && (if fee.Prepaid? then maxFee == 0 else env.fee.Some? && maxFee >= env.fee.value)
    case _ => false
  }

  function FirstAlias(call: Call): Option<R.Alias> {
    match call
    case UnloadIntoAsset(input, _) => if input.aliases == [] then None else Some(input.aliases[0])
    case UnloadMixed(input, _, _, _) => if input.aliases == [] then None else Some(input.aliases[0])
    case UnloadIntoCoins(input, _, _) => if input.aliases == [] then None else Some(input.aliases[0])
    case _ => None
  }

  /** The first proof of a from-output unload: valid in the fee ring, and its alias not yet spent. */
  predicate FeeProofOk(cfg: Config, s: State, value: int, index: nat, revision: nat, proofs: seq<R.Proof>) {
    && proofs != []
    && R.Spendable(s.rec, s.now, cfg.expiry, value, index, revision)
    && value >= cfg.minFeeExp
    && R.ProofHolds(s.rec.collections[value].rings[index], proofs[0])
    && R.Alias(proofs[0].member) !in R.MarksOf(s.rec.marks, R.RingKey(value, index))
  }

  /** `validate`: the origin the call will run under, or `None` when the transaction is rejected. */
  function Validate(cfg: Config, env: Env, s: State, ext: Extension, call: Call): Option<Origin> {
    match ext
    case NoExtension(who) =>
      if call.UnloadSigned? && !(forall input :: input in call.inputs ==> InputSpendable(cfg, s, input)) then None
      else Some(Signed(who))
    case AsCoin(who) =>
      if !Unlocked(s, who) || who !in s.coins then None
      else if !CoinCallOk(cfg, env, s, who, s.coins[who], call) then None
      else Some(CoinOrigin(who, s.coins[who]))
    case AsUnloadToken(proofs, tokenOk) =>
      if !UnloadCallOk(cfg, env, s, call, Prepaid) || !tokenOk then None
      else Some(UnloadToken(proofs, Prepaid))
    case AsUnloadFromOutput(value, index, revision, proofs) =>
      var fee := FromOutput(value, index);
      if !UnloadCallOk(cfg, env, s, call, fee) then None
      else if !FeeProofOk(cfg, s, value, index, revision, proofs) then None
      else if FirstAlias(call) != Some(R.Alias(proofs[0].member)) then None
      else Some(UnloadToken(proofs, fee))
    case AsInfallibleUnpaid(who, accepted) =>
      if call.LoadUnpaid? && accepted then Some(InfallibleUnpaid(who)) else None
    case LocalAuthorized =>
      match call
      case CleanRecycler(v) => if R.CanClean(s.rec, s.now, cfg.expiry, v) then Some(Authorized) else None
      case CleanRecyclerDust(k, batch) => if k in s.rec.dusting then Some(Authorized) else None
      case _ => None
  }

  // ---------------------------------------------------------------------------------------------
  // The whole transaction
  // ---------------------------------------------------------------------------------------------

  /** `prepare`: the coin is taken out, or the first alias is marked, before dispatch. */
  function Prepare(s: State, origin: Origin): State {
    match origin
    case CoinOrigin(owner, _) => s.(coins := s.coins - {owner})
    case UnloadToken(proofs, FromOutput(v, i)) =>
      if proofs == [] then s
      else s.(rec := R.MarkAll(s.rec, R.RingKey(v, i), {R.Alias(proofs[0].member)}))
    case _ => s
  }

  /** `2u64.saturating_pow(retries)`. */
  function SatPow2(retries: nat): nat {
    if retries >= 64 then U64_MAX else Pow2(retries)
  }

  function LockAfterFailure(cfg: Config, s: State, owner: Account): Lock {
    var retries := if owner in s.locked then SatAdd(s.locked[owner].retries, 1, 255) else 0;
    Lock(retries, SatAdd(s.now, SatMul(SatPow2(retries), cfg.lockBase, U64_MAX), U64_MAX))
  }

  /** `post_dispatch_details` after a failed dispatch. */
  function PostFailure(cfg: Config, s: State, origin: Origin): State {
    match origin
    case CoinOrigin(owner, coin) =>
      s.(coins := s.coins[owner := coin], locked := s.locked[owner := LockAfterFailure(cfg, s, owner)])
    case UnloadToken(_, FromOutput(v, _)) =>
      (match PriceOf(cfg, v)
       case Some(amount) => Destroy(cfg, s, amount)
       case None => s)
    case _ => s
  }

  function PostSuccess(s: State, origin: Origin): State {
    match origin
    case CoinOrigin(owner, _) => s.(locked := s.locked - {owner})
    case _ => s
  }

  /** Alias lists are vectors bounded by `MaxConsolidation` and a fee cap is a balance; a larger one does not decode. */
  predicate Decodes(cfg: Config, call: Call) {
    match call
    case UnloadIntoCoin(input, _) => |input.aliases| <= cfg.maxConsolidation
    case UnloadIntoAsset(input, _) => |input.aliases| <= cfg.maxConsolidation
    case UnloadMixed(input, _, _, _) => |input.aliases| <= cfg.maxConsolidation
    case UnloadIntoCoins(input, _, maxFee) => |input.aliases| <= cfg.maxConsolidation && maxFee <= cfg.maxBalance
    case _ => true
  }

  /** `prepare`, dispatch and `post_dispatch`. A failed unpaid load is not included at all. */
  function Execute(cfg: Config, env: Env, s: State, call: Call, origin: Origin): State
    requires Amount(cfg.denom, cfg.denom.minExp) > 0
  {
    var prepared := Prepare(s, origin);
    match Dispatch(cfg, env, prepared, call, origin)
    case Some(t) => PostSuccess(t, origin)
    case None => if origin.InfallibleUnpaid? then s else PostFailure(cfg, prepared, origin)
  }

  /** One transaction; a rejected one changes nothing. */
  function Transact(cfg: Config, env: Env, s: State, ext: Extension, call: Call): State
    requires Amount(cfg.denom, cfg.denom.minExp) > 0
  {
    match (if Decodes(cfg, call) then Validate(cfg, env, s, ext, call) else None)
    case None => s
    case Some(origin) => Execute(cfg, env, s, call, origin)
  }

  /** A step of a run: a transaction, work of the member service, or the passing of time. */
  datatype Step =
    | Tx(env: Env, ext: Extension, call: Call)
    | Onboard(value: int, startNew: bool)
    | Rebuild(value: int, index: nat, revisions: set<nat>, sealedAt: Option<nat>)
    | Tick(seconds: nat)

  function Next(cfg: Config, s: State, step: Step): State
    requires Amount(cfg.denom, cfg.denom.minExp) > 0
  {
    match step
    case Tx(env, ext, call) => Transact(cfg, env, s, ext, call)
    case Onboard(v, startNew) => if R.CanOnboard(s.rec, v) then s.(rec := R.Onboard(s.rec, v, startNew)) else s
    case Rebuild(v, i, revisions, sealedAt) =>
      if v in s.rec.collections && i < |s.rec.collections[v].rings|
      then s.(rec := R.Rebuild(s.rec, v, i, revisions, sealedAt)) else s
    case Tick(seconds) => s.(now := s.now + seconds)
  }

  function Run(cfg: Config, s: State, steps: seq<Step>): State
    requires Amount(cfg.denom, cfg.denom.minExp) > 0
    decreases |steps|
  {
    if steps == [] then s else Run(cfg, Next(cfg, s, steps[0]), steps[1..])
  }
}
