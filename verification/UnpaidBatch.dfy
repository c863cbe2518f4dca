/**
  The infallible unpaid batch (`pallets/coinage/src/lib.rs`): what validation accepts, and when every
  item of an accepted batch then dispatches.

  The asset pallet is seen through its contract: an `Expendable` debit may empty the account and
  reaps it, with the remainder, when less than the minimum balance would stay; the other two modes
  refuse a debit that would leave less than the minimum.
*/
module UnpaidBatch {
  import opened Prelude
  import R = Recyclers

  datatype Preservation = Expendable | Protect | Preserve

  datatype Item = Item(preservation: Preservation, value: int, member: R.Member, ownsKey: bool)

  datatype Error =
    | EmptyBatch | MemberKeyAlreadyUsed | InvalidMemberKey | InvalidProofOfOwnership | BadValue
    | CollectionNotCreated | InsufficientBalance

  /** `price` is `coin_value_to_asset_amount` on the valid values. */
  datatype Context = Context(price: map<int, nat>, maxBalance: nat, minBalance: nat, load: R.LoadEnv)

  datatype Wallet = Wallet(balance: nat, rec: R.Storage)

  /** `strictest`. */
  function Strictest(a: Preservation, b: Preservation): Preservation {
    if a.Preserve? || b.Preserve? then Preserve
    else if a.Protect? || b.Protect? then Protect
    else Expendable
  }

  /** `reducible_balance`. */
  function Reducible(ctx: Context, balance: nat, p: Preservation): nat {
    if p.Expendable? then balance else SatSub(balance, ctx.minBalance)
  }

  /** The balance after a debit, or `None` when it is refused. */
  function Debit(ctx: Context, balance: nat, p: Preservation, amount: nat): Option<nat> {
    if amount > Reducible(ctx, balance, p) then None
    else if p.Expendable? && balance - amount < ctx.minBalance then Some(0)
    else Some(balance - amount)
  }

  // ---------------------------------------------------------------------------------------------
  // Validation
  // ---------------------------------------------------------------------------------------------

  /** `validate_unpaid_load_item`. */
  function CheckItem(ctx: Context, rec: R.Storage, item: Item): Result<nat, Error> {
    if item.member in rec.loaded then Err(MemberKeyAlreadyUsed)
    else if item.member in ctx.load.invalidKeys then Err(InvalidMemberKey)
    else if !item.ownsKey then Err(InvalidProofOfOwnership)
    else if item.value !in ctx.price then Err(BadValue)
    else if item.value !in rec.collections then Err(CollectionNotCreated)
    else Ok(ctx.price[item.value])
  }

  function Cost(ctx: Context, item: Item): nat {
    if item.value in ctx.price then ctx.price[item.value] else 0
  }

  function TotalCost(ctx: Context, items: seq<Item>): nat
    decreases |items|
  {
    if items == [] then 0 else TotalCost(ctx, items[..|items| - 1]) + Cost(ctx, items[|items| - 1])
  }

  function StrictestOf(items: seq<Item>): Preservation
    decreases |items|
  {
    if items == [] then Expendable else Strictest(StrictestOf(items[..|items| - 1]), items[|items| - 1].preservation)
  }

  function Members(items: seq<Item>): seq<R.Member> {
    seq(|items|, i requires 0 <= i < |items| => items[i].member)
  }

  ghost predicate ItemsOk(ctx: Context, rec: R.Storage, items: seq<Item>) {
    forall i :: 0 <= i < |items| ==> CheckItem(ctx, rec, items[i]).Ok?
  }

  /** What the batch validation is for: valid items with distinct keys that the balance covers together. */
  ghost predicate Accepted(ctx: Context, w: Wallet, items: seq<Item>) {
    && items != []
    && Distinct(Members(items))
    && ItemsOk(ctx, w.rec, items)
    && TotalCost(ctx, items) <= Min(ctx.maxBalance, Reducible(ctx, w.balance, StrictestOf(items)))
  }

  lemma {:induction false} TotalCostGrows(ctx: Context, items: seq<Item>, k: nat)
    requires k <= |items|
    ensures TotalCost(ctx, items[..k]) <= TotalCost(ctx, items)
    decreases |items|
  {
    if k < |items| {
      TotalCostGrows(ctx, items[..|items| - 1], k);
      assert items[..|items| - 1][..k] == items[..k];
    } else {
      assert items[..k] == items;
    }
  }

  lemma PrefixStep(ctx: Context, items: seq<Item>, k: nat)
    requires k < |items|
    ensures TotalCost(ctx, items[..k + 1]) == TotalCost(ctx, items[..k]) + Cost(ctx, items[k])
    ensures StrictestOf(items[..k + 1]) == Strictest(StrictestOf(items[..k]), items[k].preservation)
    ensures Members(items[..k + 1]) == Members(items[..k]) + [items[k].member]
  {
    assert items[..k + 1][..k] == items[..k];
  }

  /** The validation loop accepts exactly the batches described above, and returns the keys in order. */
  method ValidateBatch(ctx: Context, w: Wallet, items: seq<Item>) returns (r: Result<seq<R.Member>, Error>)
    ensures r.Ok? <==> Accepted(ctx, w, items)
    ensures r.Ok? ==> r.value == Members(items)
  {
    if items == [] {
      return Err(EmptyBatch);
    }
    var seen: set<R.Member>, total: nat, strictest, keys := {}, 0, Expendable, [];
    var k := 0;
    while k < |items|
      invariant 0 <= k <= |items|
      invariant keys == Members(items[..k]) && seen == Elements(keys) && Distinct(keys)
      invariant total == TotalCost(ctx, items[..k]) && strictest == StrictestOf(items[..k])
      invariant total <= ctx.maxBalance
      invariant forall i :: 0 <= i < k ==> CheckItem(ctx, w.rec, items[i]).Ok?
    {
      var item := items[k];
      PrefixStep(ctx, items, k);
      if item.member in seen {
        RepeatedKey(items, k);
        return Err(MemberKeyAlreadyUsed);
      }
      var cost := CheckItem(ctx, w.rec, item);
      if cost.Err? {
        return Err(cost.error);
      }
      if total + cost.value > ctx.maxBalance {
        TotalCostGrows(ctx, items, k + 1);
        return Err(InsufficientBalance);
      }
      seen, total := seen + {item.member}, total + cost.value;
      strictest, keys := Strictest(strictest, item.preservation), keys + [item.member];
      k := k + 1;
    }
    assert items[..k] == items;
    if Reducible(ctx, w.balance, strictest) < total {
      return Err(InsufficientBalance);
    }
    r := Ok(keys);
  }

  lemma RepeatedKey(items: seq<Item>, k: nat)
    requires k < |items| && items[k].member in Elements(Members(items[..k]))
    ensures !Distinct(Members(items))
  {
    var i :| 0 <= i < k && Members(items[..k])[i] == items[k].member;
    assert Members(items)[i] == Members(items)[k];
  }

  // ---------------------------------------------------------------------------------------------
  // Dispatch
  // ---------------------------------------------------------------------------------------------

  /** `do_unpaid_load`. */
  function LoadItem(ctx: Context, w: Wallet, item: Item): Option<Wallet> {
    if item.value !in ctx.price then None
    else
      match (Debit(ctx, w.balance, item.preservation, ctx.price[item.value]), R.LoadSpec(ctx.load, w.rec, item.value, item.member))
      case (Some(left), Ok(rec)) => Some(Wallet(left, rec))
      case _ => None
  }

  function LoadAll(ctx: Context, w: Wallet, items: seq<Item>): Option<Wallet>
    decreases |items|
  {
    if items == [] then Some(w)
    else
      match LoadAll(ctx, w, items[..|items| - 1])
      case None => None
      case Some(t) => LoadItem(ctx, t, items[|items| - 1])
  }

  /** The dispatch loop: it stops at the first item that fails, and the call is then rolled back. */
  method DispatchBatch(ctx: Context, w: Wallet, items: seq<Item>) returns (r: Option<Wallet>)
    ensures r == LoadAll(ctx, w, items)
  {
    var t := w;
    var k := 0;
    while k < |items|
      invariant 0 <= k <= |items|
      invariant LoadAll(ctx, w, items[..k]) == Some(t)
    {
      LoadAllPrefix(ctx, w, items, k);
      var next := LoadItem(ctx, t, items[k]);
      if next.None? {
        LoadAllStops(ctx, w, items, k + 1);
        return None;
      }
      t := next.value;
      k := k + 1;
    }
    assert items[..k] == items;
    r := Some(t);
  }

  lemma LoadAllPrefix(ctx: Context, w: Wallet, items: seq<Item>, k: nat)
    requires k < |items| && LoadAll(ctx, w, items[..k]).Some?
    ensures LoadAll(ctx, w, items[..k + 1]) == LoadItem(ctx, LoadAll(ctx, w, items[..k]).value, items[k])
  {
    assert items[..k + 1][..k] == items[..k];
  }

  lemma {:induction false} LoadAllStops(ctx: Context, w: Wallet, items: seq<Item>, k: nat)
    requires k <= |items| && LoadAll(ctx, w, items[..k]).None?
    ensures LoadAll(ctx, w, items).None?
    decreases |items|
  {
    if k < |items| {
      assert items[..|items| - 1][..k] == items[..k];
      LoadAllStops(ctx, w, items[..|items| - 1], k);
    } else {
      assert items[..k] == items;
    }
  }

  // ---------------------------------------------------------------------------------------------
  // The two halves of a dispatch
  // ---------------------------------------------------------------------------------------------

  /** The balance alone. */
  function Spend(ctx: Context, balance: nat, items: seq<Item>): Option<nat>
    decreases |items|
  {
    if items == [] then Some(balance)
    else
      var n := |items| - 1;
      match Spend(ctx, balance, items[..n])
      case None => None
      case Some(b) => Debit(ctx, b, items[n].preservation, Cost(ctx, items[n]))
  }

  function Vouchers(items: seq<Item>): seq<R.Voucher> {
    seq(|items|, i requires 0 <= i < |items| => R.Voucher(items[i].value, items[i].member))
  }

  lemma VouchersStep(items: seq<Item>, k: nat)
    requires k < |items|
    ensures Vouchers(items[..k + 1])[..k] == Vouchers(items[..k])
    ensures Vouchers(items[..k + 1])[k] == R.Voucher(items[k].value, items[k].member)
  {
  }

  /** After the first items the later keys are still unused and their collections still there. */
  lemma {:induction false} LaterKeysFresh(rec: R.Storage, items: seq<Item>, k: nat, m: R.Member, v: int)
    requires k <= |items| && m !in rec.loaded && v in rec.collections
    requires forall i :: 0 <= i < k ==> items[i].member != m
    ensures var t := R.EnqueueAll(rec, Vouchers(items[..k])); m !in t.loaded && v in t.collections
    decreases k
  {
    if k > 0 {
      LaterKeysFresh(rec, items, k - 1, m, v);
      VouchersStep(items, k - 1);
    }
  }

  lemma LoadsNext(ctx: Context, rec: R.Storage, items: seq<Item>, k: nat)
    requires k < |items| && ItemsOk(ctx, rec, items) && Distinct(Members(items)) && ctx.load.addOk
    ensures R.LoadSpec(ctx.load, R.EnqueueAll(rec, Vouchers(items[..k])), items[k].value, items[k].member)
         == Ok(R.EnqueueAll(rec, Vouchers(items[..k + 1])))
  {
    forall i | 0 <= i < k
      ensures items[i].member != items[k].member
    {
      assert Members(items)[i] != Members(items)[k];
    }
    assert CheckItem(ctx, rec, items[k]).Ok?;
    LaterKeysFresh(rec, items, k, items[k].member, items[k].value);
    VouchersStep(items, k);
  }

  /** An accepted batch can only fail on the balance. */
  lemma {:induction false} LoadAllIsSpend(ctx: Context, w: Wallet, items: seq<Item>, k: nat)
    requires k <= |items| && ItemsOk(ctx, w.rec, items) && Distinct(Members(items)) && ctx.load.addOk
    ensures LoadAll(ctx, w, items[..k])
         == match Spend(ctx, w.balance, items[..k])
            case None => None
            case Some(b) => Some(Wallet(b, R.EnqueueAll(w.rec, Vouchers(items[..k]))))
    decreases k
  {
    if k > 0 {
      LoadAllIsSpend(ctx, w, items, k - 1);
      assert items[..k][..k - 1] == items[..k - 1];
      LoadsNext(ctx, w.rec, items, k - 1);
      assert CheckItem(ctx, w.rec, items[k - 1]).Ok?;
    }
  }

  // ---------------------------------------------------------------------------------------------
  // When the balance suffices
  // ---------------------------------------------------------------------------------------------

  lemma SpendStep(ctx: Context, balance: nat, items: seq<Item>, k: nat)
    requires k < |items| && Spend(ctx, balance, items[..k]).Some?
    ensures Spend(ctx, balance, items[..k + 1])
         == Debit(ctx, Spend(ctx, balance, items[..k]).value, items[k].preservation, Cost(ctx, items[k]))
  {
    assert items[..k + 1][..k] == items[..k];
  }

  /** While the minimum balance remains, each item costs exactly its price. */
  lemma {:induction false} SpendIsExact(ctx: Context, balance: nat, items: seq<Item>, k: nat)
    requires k <= |items| && TotalCost(ctx, items[..k]) + ctx.minBalance <= balance
    ensures Spend(ctx, balance, items[..k]) == Some(balance - TotalCost(ctx, items[..k]))
    decreases k
  {
    if k > 0 {
      PrefixStep(ctx, items, k - 1);
      SpendIsExact(ctx, balance, items, k - 1);
      SpendStep(ctx, balance, items, k - 1);
    }
  }

  ghost predicate AllExpendable(items: seq<Item>) {
    forall i :: 0 <= i < |items| ==> items[i].preservation.Expendable?
  }

  lemma {:induction false} ExpendableIff(items: seq<Item>)
    ensures StrictestOf(items).Expendable? <==> AllExpendable(items)
    decreases |items|
  {
    if items != [] {
      var n := |items| - 1;
      ExpendableIff(items[..n]);
      assert forall i :: 0 <= i < n ==> items[..n][i] == items[i];
      assert AllExpendable(items) <==> AllExpendable(items[..n]) && items[n].preservation.Expendable?;
    }
  }

  /** A positive price cannot be paid from a reaped account. */
  lemma {:induction false} ReapedStaysEmpty(ctx: Context, balance: nat, items: seq<Item>, k: nat)
    requires AllExpendable(items) && (forall i :: 0 <= i < |items| ==> Cost(ctx, items[i]) > 0)
    requires 0 < k <= |items| && balance < TotalCost(ctx, items[..k]) + ctx.minBalance
    ensures Spend(ctx, balance, items[..k]).Some? ==> Spend(ctx, balance, items[..k]).value == 0
    decreases k
  {
    PrefixStep(ctx, items, k - 1);
    var b := Spend(ctx, balance, items[..k - 1]);
    if b.Some? {
      SpendStep(ctx, balance, items, k - 1);
      if balance < TotalCost(ctx, items[..k - 1]) + ctx.minBalance {
        if k > 1 {
          ReapedStaysEmpty(ctx, balance, items, k - 1);
        }
      } else {
        SpendIsExact(ctx, balance, items, k - 1);
      }
    } else {
      SpendFails(ctx, balance, items, k - 1);
    }
  }

  lemma SpendFails(ctx: Context, balance: nat, items: seq<Item>, k: nat)
    requires k < |items| && Spend(ctx, balance, items[..k]).None?
    ensures Spend(ctx, balance, items[..k + 1]).None?
  {
    assert items[..k + 1][..k] == items[..k];
  }

  /** What is left when the last item is due. */
  ghost function BeforeLast(ctx: Context, balance: nat, items: seq<Item>): int
    requires items != []
  {
    balance - TotalCost(ctx, items[..|items| - 1])
  }

  lemma SpendSucceedsIff(ctx: Context, balance: nat, items: seq<Item>)
    requires items != [] && (forall i :: 0 <= i < |items| ==> Cost(ctx, items[i]) > 0)
    requires TotalCost(ctx, items) <= Reducible(ctx, balance, StrictestOf(items))
    ensures Spend(ctx, balance, items).Some?
       <==> !AllExpendable(items) || |items| == 1 || BeforeLast(ctx, balance, items) >= ctx.minBalance
  {
    var n := |items| - 1;
    assert items[..n + 1] == items;
    PrefixStep(ctx, items, n);
    ExpendableIff(items);
    if !AllExpendable(items) {
      SpendIsExact(ctx, balance, items, n + 1);
    } else if BeforeLast(ctx, balance, items) >= ctx.minBalance {
      SpendIsExact(ctx, balance, items, n);
      SpendStep(ctx, balance, items, n);
    } else if n == 0 {
      assert items[..0] == [];
      SpendStep(ctx, balance, items, 0);
    } else {
      ReapedStaysEmpty(ctx, balance, items, n);
      if Spend(ctx, balance, items[..n]).Some? {
        SpendStep(ctx, balance, items, n);
      } else {
        SpendFails(ctx, balance, items, n);
      }
    }
  }

  // ---------------------------------------------------------------------------------------------
  // The conditions and the effect in full
  // ---------------------------------------------------------------------------------------------

  /** A signed key nobody used, of a value that has a price and a collection. */
  ghost predicate Loadable(ctx: Context, rec: R.Storage, item: Item) {
    && item.member !in rec.loaded && item.member !in ctx.load.invalidKeys && item.ownsKey
    && item.value in ctx.price && item.value in rec.collections
  }

  /** What the account may spend: all of it if every item may reap it, all but the minimum balance otherwise. */
  ghost function Spendable(ctx: Context, balance: nat, items: seq<Item>): nat {
    if AllExpendable(items) then balance else Max(0, balance - ctx.minBalance)
  }

  lemma AcceptedExactly(ctx: Context, w: Wallet, items: seq<Item>)
    ensures Accepted(ctx, w, items) <==>
      && items != []
      && (forall i :: 0 <= i < |items| ==> Loadable(ctx, w.rec, items[i]))
      && (forall i, j :: 0 <= i < j < |items| ==> items[i].member != items[j].member)
      && TotalCost(ctx, items) <= ctx.maxBalance && TotalCost(ctx, items) <= Spendable(ctx, w.balance, items)
  {
    ExpendableIff(items);
    assert Distinct(Members(items)) <==> forall i, j :: 0 <= i < j < |items| ==> items[i].member != items[j].member by {
      assert forall i :: 0 <= i < |items| ==> Members(items)[i] == items[i].member;
    }
    assert ItemsOk(ctx, w.rec, items) <==> forall i :: 0 <= i < |items| ==> Loadable(ctx, w.rec, items[i]) by {
      assert forall i :: 0 <= i < |items| ==> (CheckItem(ctx, w.rec, items[i]).Ok? <==> Loadable(ctx, w.rec, items[i]));
    }
  }

  /** The account pays the total; what is left below the minimum goes too when every item may reap the account. */
  lemma LoadedExactly(ctx: Context, w: Wallet, items: seq<Item>)
    requires Accepted(ctx, w, items) && PricesPositive(ctx) && ctx.load.addOk && LoadAll(ctx, w, items).Some?
    ensures var left := w.balance - TotalCost(ctx, items);
      && left >= 0
      && LoadAll(ctx, w, items).value.balance == (if AllExpendable(items) && left < ctx.minBalance then 0 else left)
      && LoadAll(ctx, w, items).value.rec == R.EnqueueAll(w.rec, Vouchers(items))
  {
    var n := |items| - 1;
    assert items[..n + 1] == items;
    PrefixStep(ctx, items, n);
    ExpendableIff(items);
    LoadAllIsSpend(ctx, w, items, n + 1);
    AcceptedDispatchesIff(ctx, w, items);
    if !AllExpendable(items) {
      SpendIsExact(ctx, w.balance, items, n + 1);
    } else if n == 0 {
      assert items[..0] == [];
      SpendStep(ctx, w.balance, items, 0);
    } else {
      SpendIsExact(ctx, w.balance, items, n);
      SpendStep(ctx, w.balance, items, n);
    }
  }

  ghost predicate PricesPositive(ctx: Context) {
    forall v :: v in ctx.price ==> ctx.price[v] > 0
  }

  /**
    Exactly when the dispatch of an accepted batch is infallible: unless every item may reap the
    account, the batch has more than one item, and the account would drop below the minimum balance
    before the last one.
  */
  lemma AcceptedDispatchesIff(ctx: Context, w: Wallet, items: seq<Item>)
    requires Accepted(ctx, w, items) && PricesPositive(ctx) && ctx.load.addOk
    ensures LoadAll(ctx, w, items).Some?
       <==> !AllExpendable(items) || |items| == 1 || BeforeLast(ctx, w.balance, items) >= ctx.minBalance
  {
    assert items[..|items|] == items;
    LoadAllIsSpend(ctx, w, items, |items|);
    forall i | 0 <= i < |items|
      ensures Cost(ctx, items[i]) > 0
    {
      assert CheckItem(ctx, w.rec, items[i]).Ok?;
    }
    SpendSucceedsIff(ctx, w.balance, items);
  }

  /** With no denomination below the asset's minimum balance, every accepted batch dispatches every item. */
  lemma AcceptedIsInfallible(ctx: Context, w: Wallet, items: seq<Item>)
    requires Accepted(ctx, w, items) && PricesPositive(ctx) && ctx.load.addOk
    requires forall v :: v in ctx.price ==> ctx.price[v] >= ctx.minBalance
    ensures LoadAll(ctx, w, items).Some? && LoadAll(ctx, w, items).value.rec == R.EnqueueAll(w.rec, Vouchers(items))
  {
    var n := |items| - 1;
    AcceptedDispatchesIff(ctx, w, items);
    assert items[..n + 1] == items;
    PrefixStep(ctx, items, n);
    assert CheckItem(ctx, w.rec, items[n]).Ok?;
    ExpendableIff(items);
    LoadAllIsSpend(ctx, w, items, n + 1);
  }

  /** Two 6-unit items from a balance of 12 with a minimum of 10: accepted, and the second one fails. */
  lemma SmallDenominationFails()
    returns (ctx: Context, w: Wallet, items: seq<Item>)
    ensures PricesPositive(ctx) && ctx.load.addOk
    ensures Accepted(ctx, w, items) && LoadAll(ctx, w, items).None?
  {
    ctx := Context(map[0 := 6], 1000, 10, R.LoadEnv({}, true, true));
    w := Wallet(12, R.Storage(map[0 := R.Collection([], [])], map[], map[], {}, map[]));
    items := [Item(Expendable, 0, 1, true), Item(Expendable, 0, 2, true)];
    assert items[..2] == items && items[..0] == [];
    PrefixStep(ctx, items, 0);
    PrefixStep(ctx, items, 1);
    ExpendableIff(items);
    assert Members(items) == [1, 2];
    AcceptedDispatchesIff(ctx, w, items);
    assert items[..1] == [Item(Expendable, 0, 1, true)];
  }
}
