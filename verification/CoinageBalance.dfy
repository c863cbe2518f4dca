/**
  Conservation, call by call: the asset value each dispatch puts into circulation, pays out,
  destroys or takes in. `pending` is the value of the coin or the alias that `prepare` has already
  taken out of the storage and that the dispatch still has to account for.
*/
module CoinageBalance {
  import opened Prelude
  import opened Denomination
  import opened SplitValidation
  import opened CoinLedger
  import opened Coinage
  import R = Recyclers
  import RI = RecyclerInvariant
  import RL = RecyclerLaws

  ghost function WorthOf(price: map<int, nat>): Coin -> int {
    (c: Coin) => RI.Price(price, c.value)
  }

  /** The asset value of all coins. */
  ghost function Worth(cfg: Config, coins: Coins): int {
    Tally(WorthOf(cfg.price), coins)
  }

  ghost function Owed(cfg: Config, s: State): int {
    Worth(cfg, s.coins) + RI.Value(cfg.price, s.rec) + s.destroyed
  }

  ghost predicate Balanced(cfg: Config, s: State, pending: int) {
    s.held == Owed(cfg, s) + pending
  }

  ghost predicate CoinsOk(cfg: Config, coins: Coins) {
    forall a :: a in coins ==> coins[a].value in cfg.price && coins[a].age <= cfg.maxAge
  }

  ghost predicate RecyclersOk(cfg: Config, rec: R.Storage) {
    RI.Inv(rec) && forall v :: v in rec.collections ==> v in cfg.price
  }

  // ---------------------------------------------------------------------------------------------
  // Non-negative totals: the room every saturating operation needs
  // ---------------------------------------------------------------------------------------------

  lemma WorthNonNegative(cfg: Config, coins: Coins)
    ensures Worth(cfg, coins) >= 0
  {
    TallyNonNegative(WorthOf(cfg.price), coins);
  }

  lemma {:induction false} RingsNetNonNegative(s: R.Storage, v: int, n: nat)
    requires RI.Registered(s) && RI.MarksBacked(s) && v in s.collections && n <= |s.collections[v].rings|
    ensures RI.RingsNet(s.marks, v, s.collections[v].rings[..n]) >= 0
    decreases n
  {
    if n > 0 {
      RingsNetNonNegative(s, v, n - 1);
      var rings := s.collections[v].rings;
      assert rings[..n][..n - 1] == rings[..n - 1];
      if !rings[n - 1].removed {
        RI.MarksWithinRing(s, v, n - 1);
      }
    }
  }

  lemma LiveNonNegative(s: R.Storage, v: int)
    requires RI.Inv(s)
    ensures RI.Live(s, v) >= 0
  {
    if v in s.collections {
      var rings := s.collections[v].rings;
      RingsNetNonNegative(s, v, |rings|);
      assert rings[..|rings|] == rings;
    }
  }

  lemma ValueNonNegative(price: map<int, nat>, s: R.Storage)
    requires RI.Inv(s)
    ensures RI.Value(price, s) >= 0
  {
    forall v | v in s.collections
      ensures RI.Price(price, v) * RI.Live(s, v) >= 0
    {
      LiveNonNegative(s, v);
      ProductNonNegative(RI.Price(price, v), RI.Live(s, v));
    }
    RI.Sums.SumNonNegative(RI.Ledger(price, s));
  }

  lemma ProductNonNegative(a: int, b: int)
    requires a >= 0 && b >= 0
    ensures a * b >= 0
  {
  }

  lemma OwedNonNegative(cfg: Config, s: State)
    requires RI.Inv(s.rec)
    ensures Owed(cfg, s) >= s.destroyed
  {
    WorthNonNegative(cfg, s.coins);
    ValueNonNegative(cfg.price, s.rec);
  }

  // ---------------------------------------------------------------------------------------------
  // Coins
  // ---------------------------------------------------------------------------------------------

  lemma WorthInsert(cfg: Config, coins: Coins, a: Account, c: Coin)
    requires a !in coins && c.value in cfg.price
    ensures Worth(cfg, coins[a := c]) == Worth(cfg, coins) + cfg.price[c.value]
  {
    TallyInsert(WorthOf(cfg.price), coins, a, c);
  }

  lemma WorthRemove(cfg: Config, coins: Coins, a: Account)
    requires a in coins && coins[a].value in cfg.price
    ensures Worth(cfg, coins) == Worth(cfg, coins - {a}) + cfg.price[coins[a].value]
  {
    TallyRemove(WorthOf(cfg.price), coins, a);
  }

  lemma PriceIsUnits(cfg: Config, v: int)
    requires ConfigOk(cfg) && InRange(cfg.denom, v)
    ensures v in cfg.price
    ensures cfg.price[v] == Units(cfg.denom, v) * Amount(cfg.denom, cfg.denom.minExp)
    ensures CoinUnit(cfg.denom, v) == Some(Units(cfg.denom, v))
    ensures 1 <= cfg.price[v]
  {
    AmountIsUnits(cfg.denom, v);
  }

  /** Minting a valid split adds exactly its units, priced at the minimum coin. */
  lemma MintWorth(cfg: Config, coins: Coins, into: seq<Group>, age: nat, units: nat)
    requires ConfigOk(cfg) && ValidSplit(cfg.denom, cfg.maxSplit, coins.Keys, units, into)
    ensures Worth(cfg, Mint(coins, Outputs(into), age))
         == Worth(cfg, coins) + units * Amount(cfg.denom, cfg.denom.minExp)
  {
    var w, a := WorthOf(cfg.price), Amount(cfg.denom, cfg.denom.minExp);
    SplitIsFresh(cfg.denom, cfg.maxSplit, coins, units, into);
    MintTally(w, coins, Outputs(into), age);
    forall v | InRange(cfg.denom, v)
      ensures w(Coin(v, age)) == Units(cfg.denom, v) * a
    {
      PriceIsUnits(cfg, v);
    }
    SplitTally(w, cfg.denom, into, age, a);
  }

  lemma MintOk(cfg: Config, coins: Coins, into: seq<Group>, age: nat, units: nat)
    requires ConfigOk(cfg) && CoinsOk(cfg, coins) && age <= cfg.maxAge
    requires ValidSplit(cfg.denom, cfg.maxSplit, coins.Keys, units, into)
    ensures CoinsOk(cfg, Mint(coins, Outputs(into), age))
    ensures coins.Keys <= Mint(coins, Outputs(into), age).Keys
  {
    SplitIsFresh(cfg.denom, cfg.maxSplit, coins, units, into);
    MintContents(coins, Outputs(into), age);
    OutputValues(cfg.denom, into);
  }

  /** A split accepted while the coin was in place stays valid once `prepare` has taken it. */
  lemma SplitAfterTake(d: Denom, maxOutputs: nat, coins: Coins, owner: Account, units: nat, into: seq<Group>)
    requires ValidSplit(d, maxOutputs, coins.Keys, units, into)
    ensures ValidSplit(d, maxOutputs, (coins - {owner}).Keys, units, into)
  {
  }

  lemma SplitConserves(cfg: Config, s: State, coin: Coin, into: seq<Group>)
    requires ConfigOk(cfg) && coin.value in cfg.price && coin.age < cfg.maxAge
    requires Balanced(cfg, s, cfg.price[coin.value]) && CoinsOk(cfg, s.coins)
    requires ValidSplit(cfg.denom, cfg.maxSplit, s.coins.Keys, CoinUnit(cfg.denom, coin.value).value, into)
    ensures var t := DispatchSplit(s, coin, into).value;
      Balanced(cfg, t, 0) && CoinsOk(cfg, t.coins) && s.coins.Keys <= t.coins.Keys
  {
    var units := CoinUnit(cfg.denom, coin.value).value;
    MintWorth(cfg, s.coins, into, coin.age + 1, units);
    MintOk(cfg, s.coins, into, coin.age + 1, units);
    PriceIsUnits(cfg, coin.value);
  }

  lemma TransferConserves(cfg: Config, s: State, coin: Coin, to: Account)
    requires coin.value in cfg.price && coin.age < cfg.maxAge <= U16_MAX && to !in s.coins
    requires Balanced(cfg, s, cfg.price[coin.value]) && CoinsOk(cfg, s.coins)
    ensures var t := DispatchTransfer(s, coin, to).value;
      Balanced(cfg, t, 0) && CoinsOk(cfg, t.coins) && s.coins.Keys <= t.coins.Keys
  {
    WorthInsert(cfg, s.coins, to, Coin(coin.value, coin.age + 1));
  }

  // ---------------------------------------------------------------------------------------------
  // Loading
  // ---------------------------------------------------------------------------------------------

  lemma LoadRecycler(cfg: Config, env: R.LoadEnv, rec: R.Storage, v: int, m: R.Member)
    requires RecyclersOk(cfg, rec) && v in cfg.price && R.LoadSpec(env, rec, v, m).Ok?
    ensures var t := R.LoadSpec(env, rec, v, m).value;
      RecyclersOk(cfg, t) && RI.Value(cfg.price, t) == RI.Value(cfg.price, rec) + cfg.price[v]
  {
    RL.EnqueueInv(rec, v, m);
    RL.EnqueueValue(cfg.price, rec, v, m);
  }

  lemma LoadCoinConserves(cfg: Config, env: Env, s: State, coin: Coin, m: R.Member)
    requires coin.value in cfg.price && RecyclersOk(cfg, s.rec) && DispatchLoadCoin(env, s, coin, m).Some?
    requires Balanced(cfg, s, cfg.price[coin.value])
    ensures var t := DispatchLoadCoin(env, s, coin, m).value;
      Balanced(cfg, t, 0) && RecyclersOk(cfg, t.rec) && t == s.(rec := t.rec)
  {
    LoadRecycler(cfg, env.load, s.rec, coin.value, m);
  }

  lemma LoadOneConserves(cfg: Config, env: Env, s: State, v: int, m: R.Member)
    requires RecyclersOk(cfg, s.rec) && LoadOne(cfg, env, s, v, m).Some? && Balanced(cfg, s, 0)
    ensures var t := LoadOne(cfg, env, s, v, m).value;
      && Balanced(cfg, t, 0) && RecyclersOk(cfg, t.rec)
      && t == s.(rec := t.rec, held := t.held, flow := t.flow) && t.held <= cfg.maxBalance
  {
    LoadRecycler(cfg, env.load, s.rec, v, m);
  }

  lemma {:induction false} LoadUnpaidConserves(cfg: Config, env: Env, s: State, items: seq<R.Voucher>)
    requires RecyclersOk(cfg, s.rec) && s.held <= cfg.maxBalance && Balanced(cfg, s, 0)
    requires DispatchLoadUnpaid(cfg, env, s, items).Some?
    ensures var t := DispatchLoadUnpaid(cfg, env, s, items).value;
      && Balanced(cfg, t, 0) && RecyclersOk(cfg, t.rec)
      && t == s.(rec := t.rec, held := t.held, flow := t.flow) && t.held <= cfg.maxBalance
    decreases |items|
  {
    if items != [] {
      var n := |items| - 1;
      LoadUnpaidConserves(cfg, env, s, items[..n]);
      LoadOneConserves(cfg, env, DispatchLoadUnpaid(cfg, env, s, items[..n]).value, items[n].value, items[n].member);
    }
  }

  // ---------------------------------------------------------------------------------------------
  // Paying with a coin
  // ---------------------------------------------------------------------------------------------

  /** Destroying value the pallet still holds never saturates the counter. */
  lemma DestroyExact(cfg: Config, s: State, amount: nat)
    requires s.destroyed + amount <= cfg.maxBalance
    ensures Destroy(cfg, s, amount) == s.(destroyed := s.destroyed + amount)
  {
  }

  lemma PayTokenConserves(cfg: Config, env: Env, s: State, coin: Coin)
    requires RI.Inv(s.rec) && coin.value in cfg.price && DispatchPayToken(cfg, env, s, coin).Some?
    requires Balanced(cfg, s, cfg.price[coin.value]) && s.held <= cfg.maxBalance
    ensures var t := DispatchPayToken(cfg, env, s, coin).value;
      && Balanced(cfg, t, 0)
      && t == s.(held := t.held, flow := t.flow, destroyed := t.destroyed) && t.held <= cfg.maxBalance
  {
    OwedNonNegative(cfg, s);
    var fee := env.fee.value;
    DestroyExact(cfg, s.(held := s.held - fee), cfg.price[coin.value] - fee);
  }

  lemma OffboardConserves(cfg: Config, env: Env, s: State, coin: Coin, to: Account)
    requires coin.value in cfg.price && DispatchOffboard(cfg, env, s, coin, to).Some?
    requires Balanced(cfg, s, cfg.price[coin.value])
    ensures var t := DispatchOffboard(cfg, env, s, coin, to).value;
      Balanced(cfg, t, 0) && t == s.(held := t.held, flow := t.flow) && t.held <= s.held
  {
  }
}
