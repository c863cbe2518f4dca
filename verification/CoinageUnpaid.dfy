/**
  The unpaid batch inside a transaction: what `UnpaidBatch` accepts, carried through `Coinage`. The
  transfers of the batch go through exactly when the sender's balance lasts for all of them.
*/
module CoinageUnpaid {
  import opened Prelude
  import opened Denomination
  import opened SplitValidation
  import opened Coinage
  import opened CoinageRuns
  import R = Recyclers
  import UB = UnpaidBatch

  /** The batch context and wallet describe the same outside and the same recyclers as the transaction. */
  ghost predicate SameWorld(cfg: Config, env: Env, s: State, ctx: UB.Context, w: UB.Wallet, items: seq<UB.Item>) {
    && ctx.price == cfg.price && ctx.load == env.load && w.rec == s.rec
    && (env.payOk <==> UB.Spend(ctx, w.balance, items).Some?)
    && s.held + UB.TotalCost(ctx, items) <= cfg.maxBalance
  }

  function Loaded(s: State, ctx: UB.Context, items: seq<UB.Item>): State {
    s.(held := s.held + UB.TotalCost(ctx, items), rec := R.EnqueueAll(s.rec, UB.Vouchers(items)),
       flow := s.flow.(deposits := s.flow.deposits + UB.TotalCost(ctx, items)))
  }

  /** The transfer and the load of one item, from the state the items before it left. */
  lemma PaidItemLoads(cfg: Config, env: Env, t: State, v: int, m: R.Member, rec: R.Storage)
    requires env.payOk && v in cfg.price && t.held + cfg.price[v] <= cfg.maxBalance
    requires R.LoadSpec(env.load, t.rec, v, m) == Ok(rec)
    ensures LoadOne(cfg, env, t, v, m) == Some(t.(held := t.held + cfg.price[v], rec := rec, flow := t.flow.(deposits := t.flow.deposits + cfg.price[v])))
  {
  }

  lemma NextItemLoads(cfg: Config, env: Env, s: State, ctx: UB.Context, w: UB.Wallet, items: seq<UB.Item>, k: nat)
    requires k < |items| && SameWorld(cfg, env, s, ctx, w, items) && env.payOk && ctx.load.addOk
    requires UB.ItemsOk(ctx, s.rec, items) && Distinct(UB.Members(items))
    ensures LoadOne(cfg, env, Loaded(s, ctx, items[..k]), items[k].value, items[k].member) == Some(Loaded(s, ctx, items[..k + 1]))
  {
    UB.PrefixStep(ctx, items, k);
    UB.TotalCostGrows(ctx, items, k + 1);
    UB.LoadsNext(ctx, s.rec, items, k);
    assert UB.CheckItem(ctx, s.rec, items[k]).Ok?;
    PaidItemLoads(cfg, env, Loaded(s, ctx, items[..k]), items[k].value, items[k].member, R.EnqueueAll(s.rec, UB.Vouchers(items[..k + 1])));
  }

  lemma DispatchStep(cfg: Config, env: Env, s: State, items: seq<R.Voucher>)
    requires items != [] && DispatchLoadUnpaid(cfg, env, s, items[..|items| - 1]).Some?
    ensures var x := items[|items| - 1];
      DispatchLoadUnpaid(cfg, env, s, items) == LoadOne(cfg, env, DispatchLoadUnpaid(cfg, env, s, items[..|items| - 1]).value, x.value, x.member)
  {
  }

  lemma {:induction false} PaidItemsLoad(cfg: Config, env: Env, s: State, ctx: UB.Context, w: UB.Wallet, items: seq<UB.Item>, k: nat)
    requires k <= |items| && SameWorld(cfg, env, s, ctx, w, items) && env.payOk && ctx.load.addOk
    requires UB.ItemsOk(ctx, s.rec, items) && Distinct(UB.Members(items))
    ensures DispatchLoadUnpaid(cfg, env, s, UB.Vouchers(items[..k])) == Some(Loaded(s, ctx, items[..k]))
    decreases k
  {
    if k == 0 {
      assert UB.Vouchers(items[..0]) == [];
    } else {
      PaidItemsLoad(cfg, env, s, ctx, w, items, k - 1);
      UB.VouchersStep(items, k - 1);
      DispatchStep(cfg, env, s, UB.Vouchers(items[..k]));
      NextItemLoads(cfg, env, s, ctx, w, items, k - 1);
    }
  }

  /**
    An accepted batch is included, and takes its whole effect, if and only if it does not drain the
    account below the minimum balance before its last item; otherwise it leaves no trace.
  */
  lemma AcceptedBatchIsIncluded(cfg: Config, env: Env, s: State, who: Account, ctx: UB.Context, w: UB.Wallet, items: seq<UB.Item>)
    requires Amount(cfg.denom, cfg.denom.minExp) > 0 && SameWorld(cfg, env, s, ctx, w, items)
    requires UB.Accepted(ctx, w, items) && UB.PricesPositive(ctx) && ctx.load.addOk
    ensures Transact(cfg, env, s, AsInfallibleUnpaid(who, true), LoadUnpaid(UB.Vouchers(items)))
         == if !UB.AllExpendable(items) || |items| == 1 || UB.BeforeLast(ctx, w.balance, items) >= ctx.minBalance
            then Loaded(s, ctx, items) else s
  {
    var n := |items|;
    assert items[..n] == items;
    UnpaidOutcome(cfg, env, s, who, true, LoadUnpaid(UB.Vouchers(items)));
    UB.AcceptedDispatchesIff(ctx, w, items);
    UB.LoadAllIsSpend(ctx, w, items, n);
    if env.payOk {
      PaidItemsLoad(cfg, env, s, ctx, w, items, n);
    } else {
      UnpaidRefused(cfg, env, s, UB.Vouchers(items));
    }
  }

  lemma UnpaidRefused(cfg: Config, env: Env, s: State, items: seq<R.Voucher>)
    requires items != [] && !env.payOk
    ensures DispatchLoadUnpaid(cfg, env, s, items).None?
  {
  }

  /** With no denomination below the minimum balance the "not included" branch is never reached. */
  lemma AcceptedIsIncluded(cfg: Config, env: Env, s: State, who: Account, ctx: UB.Context, w: UB.Wallet, items: seq<UB.Item>)
    requires Amount(cfg.denom, cfg.denom.minExp) > 0 && SameWorld(cfg, env, s, ctx, w, items)
    requires UB.Accepted(ctx, w, items) && UB.PricesPositive(ctx) && ctx.load.addOk
    requires forall v :: v in ctx.price ==> ctx.price[v] >= ctx.minBalance
    ensures Transact(cfg, env, s, AsInfallibleUnpaid(who, true), LoadUnpaid(UB.Vouchers(items))) == Loaded(s, ctx, items)
  {
    AcceptedBatchIsIncluded(cfg, env, s, who, ctx, w, items);
    UB.AcceptedIsInfallible(ctx, w, items);
    UB.AcceptedDispatchesIff(ctx, w, items);
  }
}
