/**
  What whole transactions do, call by call: when each is accepted, and every storage item and every
  payment after it. Nothing below mentions how validation, preparation, dispatch and post-dispatch
  divide the work.
*/
module CoinageOutcomes {
  import opened Prelude
  import opened Powers
  import opened Denomination
  import opened SplitValidation
  import opened CoinLedger
  import opened Coinage
  import opened CoinageBalance
  import R = Recyclers
  import RO = RecyclerOutcomes

  // ---------------------------------------------------------------------------------------------
  // Coins that are minted
  // ---------------------------------------------------------------------------------------------

  ghost predicate IsOutput(split: seq<Group>, a: Account, v: int) {
    exists i, j :: 0 <= i < |split| && 0 <= j < |split[i].dests| && split[i].dests[j] == a && split[i].value == v
  }

  lemma {:induction false} OutputsExactly(split: seq<Group>, o: Output)
    ensures o in Outputs(split) <==> IsOutput(split, o.dest, o.value)
    decreases |split|
  {
    if split != [] {
      var n := |split| - 1;
      var front, last := split[..n], split[n];
      OutputsExactly(front, o);
      GroupOutputsExactly(last, o);
      assert forall i :: 0 <= i < n ==> front[i] == split[i];
      if IsOutput(front, o.dest, o.value) {
        var i, j :| 0 <= i < n && 0 <= j < |front[i].dests| && front[i].dests[j] == o.dest && front[i].value == o.value;
        assert split[i].dests[j] == o.dest;
      }
      if j :| 0 <= j < |last.dests| && last.dests[j] == o.dest && last.value == o.value {
        assert split[n].dests[j] == o.dest;
      }
      if IsOutput(split, o.dest, o.value) {
        var i, j :| 0 <= i < |split| && 0 <= j < |split[i].dests| && split[i].dests[j] == o.dest && split[i].value == o.value;
        if i < n {
          assert front[i].dests[j] == o.dest;
        } else {
          assert last.dests[j] == o.dest;
        }
      }
    }
  }

  lemma GroupOutputsExactly(g: Group, o: Output)
    ensures o in GroupOutputs(g) <==> exists j :: 0 <= j < |g.dests| && g.dests[j] == o.dest && g.value == o.value
  {
    if o in GroupOutputs(g) {
      var j :| 0 <= j < |g.dests| && GroupOutputs(g)[j] == o;
      assert g.dests[j] == o.dest;
    }
    if j :| 0 <= j < |g.dests| && g.dests[j] == o.dest && g.value == o.value {
      assert GroupOutputs(g)[j] == o;
    }
  }

  /** Every destination owns the coin of its group at the given age, and no other coin came, went or changed. */
  ghost predicate Minted(coins: Coins, t: Coins, into: seq<Group>, age: nat) {
    && (forall a :: a in coins ==> a in t && t[a] == coins[a])
    && (forall a :: a in t ==> a in coins || exists v :: IsOutput(into, a, v))
    && (forall a, v :: IsOutput(into, a, v) ==> a in t && t[a] == Coin(v, age))
  }

  lemma MintExactly(coins: Coins, into: seq<Group>, age: nat)
    requires FreshDests(coins, Outputs(into))
    ensures Minted(coins, Mint(coins, Outputs(into), age), into, age)
  {
    var outputs, t := Outputs(into), Mint(coins, Outputs(into), age);
    MintContents(coins, outputs, age);
    forall a | a in t && a !in coins
      ensures exists v :: IsOutput(into, a, v)
    {
      var i :| 0 <= i < |outputs| && outputs[i].dest == a;
      OutputsExactly(into, outputs[i]);
    }
    forall a, v | IsOutput(into, a, v)
      ensures a in t && t[a] == Coin(v, age)
    {
      OutputsExactly(into, Output(a, v));
      var i :| 0 <= i < |outputs| && outputs[i] == Output(a, v);
    }
  }

  // ---------------------------------------------------------------------------------------------
  // Calls made with a coin
  // ---------------------------------------------------------------------------------------------

  /** The account owns a coin that is not locked. */
  ghost predicate Usable(s: State, who: Account) {
    who in s.coins && (who in s.locked ==> s.locked[who].until <= s.now)
  }

  /** Rejected, or dispatched from the state without the coin, with the coin put back and relocked on failure. */
  lemma CoinPhases(cfg: Config, env: Env, s: State, who: Account, call: Call)
    requires Amount(cfg.denom, cfg.denom.minExp) > 0
    ensures var t := Transact(cfg, env, s, AsCoin(who), call);
      if !(Usable(s, who) && CoinCallOk(cfg, env, s, who, s.coins[who], call)) then t == s
      else
        match Dispatch(cfg, env, s.(coins := s.coins - {who}), call, CoinOrigin(who, s.coins[who]))
        case Some(u) => t == u.(locked := u.locked - {who})
        case None => Relocked(cfg, s, t, who)
  {
    if Usable(s, who) {
      PutBack(s, who);
    }
  }

  /** Units of a coin, in powers of two above the minimum. */
  ghost predicate Divisible(cfg: Config, coin: Coin) {
    0 <= coin.value - cfg.denom.minExp < 32
  }

  ghost predicate Splittable(cfg: Config, s: State, who: Account, into: seq<Group>) {
    && Usable(s, who) && s.coins[who].age < cfg.maxAge && Divisible(cfg, s.coins[who])
    && ValidSplit(cfg.denom, cfg.maxSplit, s.coins.Keys, Pow2(s.coins[who].value - cfg.denom.minExp), into)
  }

  /** The coin is replaced by the outputs, one use older; its lock goes. */
  lemma SplitOutcome(cfg: Config, env: Env, s: State, who: Account, into: seq<Group>)
    requires ConfigOk(cfg) && Amount(cfg.denom, cfg.denom.minExp) > 0
    ensures var t := Transact(cfg, env, s, AsCoin(who), Split(into));
      if Splittable(cfg, s, who, into)
      then t == s.(coins := t.coins, locked := s.locked - {who}) && Minted(s.coins - {who}, t.coins, into, s.coins[who].age + 1)
      else t == s
  {
    CoinPhases(cfg, env, s, who, Split(into));
    if Splittable(cfg, s, who, into) {
      SplitMints(cfg, s, who, into, s.coins[who].age + 1);
    }
  }

  lemma SplitMints(cfg: Config, s: State, who: Account, into: seq<Group>, age: nat)
    requires Splittable(cfg, s, who, into)
    ensures Minted(s.coins - {who}, Mint(s.coins - {who}, Outputs(into), age), into, age)
  {
    var units := Pow2(s.coins[who].value - cfg.denom.minExp);
    SplitAfterTake(cfg.denom, cfg.maxSplit, s.coins, who, units, into);
    SplitIsFresh(cfg.denom, cfg.maxSplit, s.coins - {who}, units, into);
    MintExactly(s.coins - {who}, into, age);
  }

  /** The coin moves, one use older, to an account that had none; its lock goes. */
  lemma TransferOutcome(cfg: Config, env: Env, s: State, who: Account, to: Account)
    requires ConfigOk(cfg) && Amount(cfg.denom, cfg.denom.minExp) > 0
    ensures Transact(cfg, env, s, AsCoin(who), Transfer(to))
         == if Usable(s, who) && s.coins[who].age < cfg.maxAge && to !in s.coins
            then s.(coins := (s.coins - {who})[to := Coin(s.coins[who].value, s.coins[who].age + 1)], locked := s.locked - {who})
            else s
  {
    CoinPhases(cfg, env, s, who, Transfer(to));
  }

  /** The coin stays, and only its lock is extended. */
  ghost predicate Relocked(cfg: Config, s: State, t: State, who: Account) {
    t == s.(locked := s.locked[who := LockAfterFailure(cfg, s, who)])
  }

  lemma PutBack(s: State, who: Account)
    requires who in s.coins
    ensures (s.coins - {who})[who := s.coins[who]] == s.coins
  {
  }

  /** A fresh key of the signer takes the coin's place in the queue of the coin's value. */
  lemma LoadCoinOutcome(cfg: Config, env: Env, s: State, who: Account, m: R.Member)
    requires Amount(cfg.denom, cfg.denom.minExp) > 0
    ensures var t := Transact(cfg, env, s, AsCoin(who), LoadCoin(m));
      if !(Usable(s, who) && m !in s.rec.loaded && m !in env.load.invalidKeys && env.ownsKey && s.coins[who].value in s.rec.collections)
      then t == s
      else if !env.load.addOk then Relocked(cfg, s, t, who)
      else
        var v := s.coins[who].value;
        && t == s.(coins := s.coins - {who}, locked := s.locked - {who}, rec := t.rec)
        && Queues(s.rec, t.rec, v, m)
  {
    CoinPhases(cfg, env, s, who, LoadCoin(m));
    if Usable(s, who) {
      RO.LoadExactly(env.load, s.rec, s.coins[who].value, m);
    }
  }

  /** The key is recorded and waits at the end of its queue; nothing else of the recyclers changes. */
  ghost predicate Queues(r: R.Storage, t: R.Storage, v: int, m: R.Member) {
    && t == r.(collections := t.collections, loaded := r.loaded[m := v])
    && t.collections.Keys == r.collections.Keys + {v}
    && RO.QueueOf(t, v) == RO.QueueOf(r, v) + [m] && RO.RingsOf(t, v) == RO.RingsOf(r, v)
    && forall u :: u != v ==> RO.QueueOf(t, u) == RO.QueueOf(r, u) && RO.RingsOf(t, u) == RO.RingsOf(r, u)
  }

  /** What the pallet pays from the hold: so much to one account, so much to the fee destination. */
  ghost predicate Paid(s: State, t: State, to: Account, amount: nat, fee: nat) {
    && t.held == s.held - amount - fee
    && t.flow.deposits == s.flow.deposits && t.flow.fees == s.flow.fees + fee
    && forall a :: Received(t.flow, a) == Received(s.flow, a) + (if a == to then amount else 0)
  }

  ghost predicate BuysToken(cfg: Config, env: Env, s: State, who: Account) {
    && Usable(s, who) && s.coins[who].age < cfg.maxAge && s.coins[who].value in cfg.price
    && env.fee.Some? && env.fee.value <= cfg.price[s.coins[who].value] && env.tokenMemberOk
  }

  /** The coin is consumed: the fee destination gets exactly the fee, and the rest of its worth is destroyed. */
  lemma PayTokenOutcome(cfg: Config, env: Env, s: State, who: Account)
    requires Amount(cfg.denom, cfg.denom.minExp) > 0
    ensures var t := Transact(cfg, env, s, AsCoin(who), PayTokenWithCoin);
      if !BuysToken(cfg, env, s, who) then t == s
      else if !env.feeOk || s.held < env.fee.value then Relocked(cfg, s, t, who)
      else
        && t == s.(coins := s.coins - {who}, locked := s.locked - {who}, held := t.held, destroyed := t.destroyed, flow := t.flow)
        && Paid(s, t, who, 0, env.fee.value)
        && t.destroyed == Min(cfg.maxBalance, s.destroyed + cfg.price[s.coins[who].value] - env.fee.value)
  {
    CoinPhases(cfg, env, s, who, PayTokenWithCoin);
  }

  /** A coin never moved is paid out to the unit, to the account named. */
  lemma OffboardOutcome(cfg: Config, env: Env, s: State, who: Account, to: Account)
    requires ConfigOk(cfg) && Amount(cfg.denom, cfg.denom.minExp) > 0
    ensures var t := Transact(cfg, env, s, AsCoin(who), Offboard(to));
      if !(Usable(s, who) && s.coins[who].age == 0 && s.coins[who].value in cfg.price) then t == s
      else if !env.payOk || s.held < cfg.price[s.coins[who].value] then Relocked(cfg, s, t, who)
      else
        && t == s.(coins := s.coins - {who}, locked := s.locked - {who}, held := t.held, flow := t.flow)
        && Paid(s, t, to, cfg.price[s.coins[who].value], 0)
  {
    CoinPhases(cfg, env, s, who, Offboard(to));
    if Usable(s, who) && s.coins[who].value in cfg.price {
      PriceIsUnits(cfg, s.coins[who].value);
    }
  }

  // ---------------------------------------------------------------------------------------------
  // Loading external assets
  // ---------------------------------------------------------------------------------------------

  ghost predicate Loadable(cfg: Config, env: Env, s: State, v: int, m: R.Member) {
    && env.ownsKey && v in cfg.price && env.payOk && s.held + cfg.price[v] <= cfg.maxBalance
    && m !in s.rec.loaded && m !in env.load.invalidKeys && (v in s.rec.collections || env.load.createOk) && env.load.addOk
  }

  /** The price of one coin is deposited and held, and the key queued; or nothing happens. */
  lemma LoadExternalOutcome(cfg: Config, env: Env, s: State, who: Account, v: int, m: R.Member)
    requires Amount(cfg.denom, cfg.denom.minExp) > 0
    ensures var t := Transact(cfg, env, s, NoExtension(who), LoadExternal(v, m));
      if Loadable(cfg, env, s, v, m)
      then
        && t == s.(held := s.held + cfg.price[v], rec := t.rec, flow := s.flow.(deposits := s.flow.deposits + cfg.price[v]))
        && Queues(s.rec, t.rec, v, m)
      else t == s
  {
    RO.LoadExactly(env.load, s.rec, v, m);
  }

  // ---------------------------------------------------------------------------------------------
  // Maintenance
  // ---------------------------------------------------------------------------------------------

  /** The oldest ring of the value is removed and what it still owed destroyed, or nothing happens. */
  lemma CleanOutcome(cfg: Config, env: Env, s: State, v: int)
    requires Amount(cfg.denom, cfg.denom.minExp) > 0 && s.now <= U32_MAX
    ensures var t, i := Transact(cfg, env, s, LocalAuthorized, CleanRecycler(v)), RO.NextRing(s.rec, v);
      if v in s.rec.collections && i < |s.rec.collections[v].rings| && s.rec.collections[v].rings[i].sealedAt.Some?
         && Min(U32_MAX, AsU32(s.rec.collections[v].rings[i].sealedAt.value) + cfg.expiry) <= s.now
         && env.removeOk && v in cfg.price
         && s.destroyed + cfg.price[v] * Unmarked(s, v, i) <= cfg.maxBalance
      then t == s.(rec := R.Clean(s.rec, v), destroyed := s.destroyed + cfg.price[v] * Unmarked(s, v, i))
      else t == s
  {
    RO.CleanableExactly(s.rec, s.now, cfg.expiry, v);
    if CleanInBounds(s, v) {
      RO.CleanExactly(s.rec, v);
    }
  }

  /** Members of the ring less its marks. */
  ghost function Unmarked(s: State, v: int, i: nat): nat
    requires v in s.rec.collections && i < |s.rec.collections[v].rings|
  {
    Max(0, |s.rec.collections[v].rings[i].members| - (if R.RingKey(v, i) in s.rec.marks then |s.rec.marks[R.RingKey(v, i)]| else 0))
  }

  /** Only a ring whose marks are queued for dusting is touched. */
  lemma DustOutcome(cfg: Config, env: Env, s: State, k: R.RingKey, batch: set<R.Alias>)
    requires Amount(cfg.denom, cfg.denom.minExp) > 0
    ensures Transact(cfg, env, s, LocalAuthorized, CleanRecyclerDust(k, batch))
         == if k in s.rec.dusting then s.(rec := R.CleanDust(s.rec, k, batch)) else s
  {
  }

  // ---------------------------------------------------------------------------------------------
  // Calls under the wrong extension
  // ---------------------------------------------------------------------------------------------

  /** Which extension each call runs under; under any other it has no effect. */
  predicate Runs(ext: Extension, call: Call) {
    match call
    case Split(_) => ext.AsCoin?
    case Transfer(_) => ext.AsCoin?
    case LoadCoin(_) => ext.AsCoin?
    case PayTokenWithCoin => ext.AsCoin?
    case Offboard(_) => ext.AsCoin?
    case LoadExternal(_, _) => ext.NoExtension?
    case LoadUnpaid(_) => ext.AsInfallibleUnpaid?
    case UnloadIntoCoin(_, _) => ext.AsUnloadToken?
    case UnloadIntoAsset(_, _) => ext.AsUnloadToken? || ext.AsUnloadFromOutput?
    case UnloadMixed(_, _, _, _) => ext.AsUnloadToken? || ext.AsUnloadFromOutput?
    case UnloadIntoCoins(_, _, _) => ext.AsUnloadToken? || ext.AsUnloadFromOutput?
    case UnloadSigned(_, _, _) => ext.NoExtension?
    case CleanRecycler(_) => ext.LocalAuthorized?
    case CleanRecyclerDust(_, _) => ext.LocalAuthorized?
  }

  lemma WrongExtensionDoesNothing(cfg: Config, env: Env, s: State, ext: Extension, call: Call)
    requires Amount(cfg.denom, cfg.denom.minExp) > 0 && !Runs(ext, call)
    ensures Transact(cfg, env, s, ext, call) == s
  {
  }

  // ---------------------------------------------------------------------------------------------
  // Dispatch on its own
  // ---------------------------------------------------------------------------------------------

  /** What validation has refused before, dispatch refuses again. */
  lemma DispatchGuards(cfg: Config, env: Env, s: State, call: Call, origin: Origin)
    requires Amount(cfg.denom, cfg.denom.minExp) > 0
    requires
      || (call.Offboard? && origin.CoinOrigin? && (origin.coin.age != 0 || origin.coin.value !in cfg.price))
      || (call.PayTokenWithCoin? && origin.CoinOrigin?
          && (origin.coin.value !in cfg.price || env.fee.None? || cfg.price[origin.coin.value] < env.fee.value || !env.tokenMemberOk))
      || (call.UnloadIntoCoin? && origin.UnloadToken? && (origin.fee.FromOutput? || call.input.aliases == []))
      || (call.UnloadIntoCoins? && origin.UnloadToken? && ((origin.fee.Prepaid? && call.maxFee != 0) || call.input.aliases == []))
      || (call.UnloadMixed? && origin.UnloadToken? && origin.fee.FromOutput? && (env.fee.None? || call.external < env.fee.value))
      || (call.UnloadMixed? && origin.UnloadToken? && (call.input.aliases == [] || call.vouchers == []))
      || ((call.UnloadIntoAsset? || call.UnloadMixed? || call.UnloadIntoCoins?) && origin.UnloadToken? && origin.fee.FromOutput?
          && (call.input.value != origin.fee.value || call.input.index != origin.fee.index || call.input.aliases == []
              || !RO.Marked(s.rec, R.RingKey(origin.fee.value, origin.fee.index), call.input.aliases[0])))
      || (call.UnloadSigned? && (call.inputs == [] || exists i :: 0 <= i < |call.inputs| && call.inputs[i].aliases == []))
      || (call.LoadExternal? && !env.ownsKey)
    ensures Dispatch(cfg, env, s, call, origin).None?
  {
    if call.UnloadSigned? {
      EmptyInputRefused(cfg, call.inputs);
    }
  }

  lemma {:induction false} EmptyInputRefused(cfg: Config, inputs: seq<Input>)
    ensures SignedTotal(cfg, inputs).Some? ==> forall i :: 0 <= i < |inputs| ==> inputs[i].aliases != []
    decreases |inputs|
  {
    if inputs != [] {
      var n := |inputs| - 1;
      EmptyInputRefused(cfg, inputs[..n]);
      assert forall i :: 0 <= i < n ==> inputs[..n][i] == inputs[i];
    }
  }
}
