/**
  Safety of whole runs beyond solvency: an unloaded alias is never accepted again, a ring that may be
  cleaned is no longer spendable, and nobody's coin is touched by someone else's transaction.
*/
module CoinageSafety {
  import opened Prelude
  import opened Denomination
  import opened SplitValidation
  import opened CoinLedger
  import opened Coinage
  import opened CoinageBalance
  import opened CoinageRuns
  import R = Recyclers
  import RI = RecyclerInvariant

  // ---------------------------------------------------------------------------------------------
  // No double unload
  // ---------------------------------------------------------------------------------------------

  /** The alias has been unloaded from the ring, or the ring itself is gone. */
  ghost predicate Dead(rec: R.Storage, k: R.RingKey, a: R.Alias) {
    a in R.MarksOf(rec.marks, k) || k.index < R.NextToClean(rec.lastRemoved, k.value)
  }

  /** No mark disappears and no removed ring comes back. */
  ghost predicate MarksGrow(r1: R.Storage, r2: R.Storage) {
    && (forall k :: R.MarksOf(r1.marks, k) <= R.MarksOf(r2.marks, k))
    && r2.lastRemoved == r1.lastRemoved
  }

  lemma MarkAllGrows(rec: R.Storage, k: R.RingKey, aliases: set<R.Alias>)
    ensures MarksGrow(rec, R.MarkAll(rec, k, aliases))
  {
  }

  lemma {:induction false} EnqueueAllGrows(rec: R.Storage, vouchers: seq<R.Voucher>)
    ensures R.EnqueueAll(rec, vouchers).marks == rec.marks
    ensures R.EnqueueAll(rec, vouchers).lastRemoved == rec.lastRemoved
    decreases |vouchers|
  {
    if vouchers != [] {
      EnqueueAllGrows(rec, vouchers[..|vouchers| - 1]);
    }
  }

  lemma {:induction false} LoadUnpaidGrows(cfg: Config, env: Env, s: State, items: seq<R.Voucher>)
    requires DispatchLoadUnpaid(cfg, env, s, items).Some?
    ensures DispatchLoadUnpaid(cfg, env, s, items).value.rec.marks == s.rec.marks
    ensures DispatchLoadUnpaid(cfg, env, s, items).value.rec.lastRemoved == s.rec.lastRemoved
    decreases |items|
  {
    if items != [] {
      LoadUnpaidGrows(cfg, env, s, items[..|items| - 1]);
    }
  }

  lemma UnloadGrows(cfg: Config, s: State, input: Input, proofs: seq<R.Proof>)
    requires Unload(cfg, s, input, proofs).Some?
    ensures MarksGrow(s.rec, Unload(cfg, s, input, proofs).value.rec)
  {
    MarkAllGrows(s.rec, R.RingKey(input.value, input.index), Elements(input.aliases));
  }

  lemma ProcessInputGrows(cfg: Config, s: State, input: Input, proofs: seq<R.Proof>, fee: FeeMode)
    requires ProcessInput(cfg, s, input, proofs, fee).Some?
    ensures MarksGrow(s.rec, ProcessInput(cfg, s, input, proofs, fee).value.rec)
  {
    if fee.Prepaid? {
      UnloadGrows(cfg, s, input, proofs);
    } else if |input.aliases| > 1 {
      UnloadGrows(cfg, s, Rest(input), proofs[1..]);
    }
  }

  lemma MixedGrows(cfg: Config, env: Env, s: State, input: Input, proofs: seq<R.Proof>, fee: FeeMode, to: Account, external: nat,
                   vouchers: seq<R.Voucher>)
    requires DispatchMixed(cfg, env, s, input, proofs, fee, to, external, vouchers).Some?
    ensures MarksGrow(s.rec, DispatchMixed(cfg, env, s, input, proofs, fee, to, external, vouchers).value.rec)
  {
    ProcessInputGrows(cfg, s, input, proofs, fee);
    EnqueueAllGrows(ProcessInput(cfg, s, input, proofs, fee).value.rec, vouchers);
  }

  lemma ForCoinsGrows(cfg: Config, env: Env, s: State, input: Input, proofs: seq<R.Proof>, fee: FeeMode, maxFee: nat)
    requires ProcessForCoins(cfg, env, s, input, proofs, fee, maxFee).Some?
    ensures MarksGrow(s.rec, ProcessForCoins(cfg, env, s, input, proofs, fee, maxFee).value.rec)
  {
    if fee.Prepaid? {
      UnloadGrows(cfg, s, input, proofs);
    } else if |input.aliases| > 1 {
      UnloadGrows(cfg, s, Rest(input), proofs[1..]);
    }
  }

  lemma {:induction false} ProcessInputsGrows(cfg: Config, s: State, inputs: seq<Input>, proofs: seq<R.Proof>)
    requires ProcessInputs(cfg, s, inputs, proofs).Some?
    ensures MarksGrow(s.rec, ProcessInputs(cfg, s, inputs, proofs).value.rec)
    decreases |inputs|
  {
    if inputs != [] {
      var n := |inputs| - 1;
      var own := |inputs[n].aliases|;
      ProcessInputsGrows(cfg, s, inputs[..n], proofs[..|proofs| - own]);
      UnloadGrows(cfg, ProcessInputs(cfg, s, inputs[..n], proofs[..|proofs| - own]).value, inputs[n], proofs[|proofs| - own..]);
    }
  }

  /** Every call but the two clean-up calls only adds marks. */
  lemma DispatchGrows(cfg: Config, env: Env, s: State, call: Call, origin: Origin)
    requires Amount(cfg.denom, cfg.denom.minExp) > 0 && !origin.Authorized?
    requires Dispatch(cfg, env, s, call, origin).Some?
    ensures MarksGrow(s.rec, Dispatch(cfg, env, s, call, origin).value.rec)
  {
    match (call, origin) {
      case (LoadUnpaid(items), InfallibleUnpaid(_)) => LoadUnpaidGrows(cfg, env, s, items);
      case (UnloadIntoCoin(input, to), UnloadToken(proofs, fee)) => UnloadGrows(cfg, s, input, proofs);
      case (UnloadIntoAsset(input, _), UnloadToken(proofs, fee)) => ProcessInputGrows(cfg, s, input, proofs, fee);
      case (UnloadMixed(input, to, external, vouchers), UnloadToken(proofs, fee)) =>
        MixedGrows(cfg, env, s, input, proofs, fee, to, external, vouchers);
      case (UnloadIntoCoins(input, into, maxFee), UnloadToken(proofs, fee)) =>
        ForCoinsGrows(cfg, env, s, input, proofs, fee, maxFee);
      case (UnloadSigned(inputs, proofs, _), Signed(_)) => ProcessInputsGrows(cfg, s, inputs, proofs);
      case _ =>
    }
  }

  lemma PrepareGrows(s: State, origin: Origin)
    ensures MarksGrow(s.rec, Prepare(s, origin).rec)
  {
    if origin.UnloadToken? && origin.fee.FromOutput? && origin.proofs != [] {
      MarkAllGrows(s.rec, R.RingKey(origin.fee.value, origin.fee.index), {R.Alias(origin.proofs[0].member)});
    }
  }

  lemma GrowKeepsDead(r1: R.Storage, r2: R.Storage, k: R.RingKey, a: R.Alias)
    requires MarksGrow(r1, r2) && Dead(r1, k, a)
    ensures Dead(r2, k, a)
  {
  }

  lemma ExecuteKeepsDead(cfg: Config, env: Env, s: State, call: Call, origin: Origin, k: R.RingKey, a: R.Alias)
    requires Amount(cfg.denom, cfg.denom.minExp) > 0 && !origin.Authorized? && Dead(s.rec, k, a)
    ensures Dead(Execute(cfg, env, s, call, origin).rec, k, a)
  {
    var p := Prepare(s, origin);
    PrepareGrows(s, origin);
    GrowKeepsDead(s.rec, p.rec, k, a);
    if Dispatch(cfg, env, p, call, origin).Some? {
      DispatchGrows(cfg, env, p, call, origin);
      GrowKeepsDead(p.rec, Dispatch(cfg, env, p, call, origin).value.rec, k, a);
    }
  }

  /** Dust clean-up deletes marks of removed rings only, so the alias stays dead. */
  lemma DustKeepsDead(rec: R.Storage, dusted: R.RingKey, batch: set<R.Alias>, k: R.RingKey, a: R.Alias)
    requires RI.DustIsDead(rec) && dusted in rec.dusting && Dead(rec, k, a)
    ensures Dead(R.CleanDust(rec, dusted, batch), k, a)
  {
    if dusted == k {
      assert k.index < R.NextToClean(rec.lastRemoved, k.value);
    }
  }

  lemma CleanKeepsDead(rec: R.Storage, v: int, k: R.RingKey, a: R.Alias)
    requires v in rec.collections && R.NextToClean(rec.lastRemoved, v) < |rec.collections[v].rings| && Dead(rec, k, a)
    ensures Dead(R.Clean(rec, v), k, a)
  {
  }

  /** What a maintenance transaction can do to the recyclers. */
  lemma MaintenanceEffect(cfg: Config, env: Env, s: State, call: Call)
    requires Amount(cfg.denom, cfg.denom.minExp) > 0
    ensures var rec := Transact(cfg, env, s, LocalAuthorized, call).rec;
      || rec == s.rec
      || (call.CleanRecycler? && CleanInBounds(s, call.value) && rec == R.Clean(s.rec, call.value))
      || (call.CleanRecyclerDust? && call.key in s.rec.dusting && rec == R.CleanDust(s.rec, call.key, call.batch))
  {
    MaintenanceOutcome(cfg, env, s, call);
  }

  lemma MaintenanceKeepsDead(cfg: Config, env: Env, s: State, call: Call, k: R.RingKey, a: R.Alias)
    requires Amount(cfg.denom, cfg.denom.minExp) > 0 && Inv(cfg, s) && Dead(s.rec, k, a)
    ensures Dead(Transact(cfg, env, s, LocalAuthorized, call).rec, k, a)
  {
    var rec := Transact(cfg, env, s, LocalAuthorized, call).rec;
    MaintenanceEffect(cfg, env, s, call);
    if rec != s.rec {
      if call.CleanRecycler? {
        CleanKeepsDead(s.rec, call.value, k, a);
      } else {
        DustKeepsDead(s.rec, call.key, call.batch, k, a);
      }
    }
  }

  lemma NextKeepsDead(cfg: Config, s: State, step: Step, k: R.RingKey, a: R.Alias)
    requires Amount(cfg.denom, cfg.denom.minExp) > 0 && Inv(cfg, s) && Dead(s.rec, k, a)
    ensures Dead(Next(cfg, s, step).rec, k, a)
  {
    if step.Tx? {
      if step.ext.LocalAuthorized? {
        MaintenanceKeepsDead(cfg, step.env, s, step.call, k, a);
      } else if Decodes(cfg, step.call) && Validate(cfg, step.env, s, step.ext, step.call).Some? {
        ExecuteKeepsDead(cfg, step.env, s, step.call, Validate(cfg, step.env, s, step.ext, step.call).value, k, a);
      }
    }
  }

  /** Once spent, or once its ring is removed, an alias stays so through every run. */
  lemma {:induction false} DeadForever(cfg: Config, s: State, steps: seq<Step>, k: R.RingKey, a: R.Alias)
    requires ConfigOk(cfg) && Amount(cfg.denom, cfg.denom.minExp) > 0 && Inv(cfg, s) && Dead(s.rec, k, a)
    ensures Dead(Run(cfg, s, steps).rec, k, a)
    decreases |steps|
  {
    if steps != [] {
      NextKeeps(cfg, s, steps[0]);
      NextKeepsDead(cfg, s, steps[0], k, a);
      DeadForever(cfg, Next(cfg, s, steps[0]), steps[1..], k, a);
    }
  }

  /** A dead alias is refused by dispatch and by the extension, whatever the proofs and the time. */
  lemma DeadIsRefused(cfg: Config, s: State, v: int, i: nat, revision: nat, a: R.Alias, aliases: seq<R.Alias>, proofs: seq<R.Proof>)
    requires RI.Inv(s.rec) && Dead(s.rec, R.RingKey(v, i), a)
    ensures a in aliases ==> R.UnloadSpec(s.rec, s.now, cfg.expiry, v, i, revision, aliases, proofs).None?
    ensures FeeProofOk(cfg, s, v, i, revision, proofs) ==> R.Alias(proofs[0].member) != a
  {
  }

  /** An accepted unload names live aliases only, and kills each of them. */
  lemma UnloadKills(rec: R.Storage, now: nat, expiry: nat, v: int, i: nat, revision: nat, aliases: seq<R.Alias>, proofs: seq<R.Proof>, a: R.Alias)
    requires RI.RemovedInOrder(rec) && R.UnloadSpec(rec, now, expiry, v, i, revision, aliases, proofs).Some? && a in aliases
    ensures !Dead(rec, R.RingKey(v, i), a)
    ensures Dead(R.UnloadSpec(rec, now, expiry, v, i, revision, aliases, proofs).value, R.RingKey(v, i), a)
  {
    var k := R.RingKey(v, i);
    var j :| 0 <= j < |aliases| && aliases[j] == a;
    assert aliases[j] !in R.MarksOf(rec.marks, k);
    LiveRing(rec, v, i);
    assert a in Elements(aliases);
    var t := R.MarkAll(rec, k, Elements(aliases));
    assert R.MarksOf(t.marks, k) == R.MarksOf(rec.marks, k) + Elements(aliases);
  }

  lemma LiveRing(rec: R.Storage, v: int, i: nat)
    requires RI.RemovedInOrder(rec) && v in rec.collections && i < |rec.collections[v].rings| && !rec.collections[v].rings[i].removed
    ensures i >= R.NextToClean(rec.lastRemoved, v)
  {
  }

  /** The fee alias of an accepted from-output unload was live, and is dead however the call ends. */
  lemma FeeAliasSpentOnce(cfg: Config, env: Env, s: State, value: int, index: nat, revision: nat, proofs: seq<R.Proof>, call: Call)
    requires Inv(cfg, s) && Amount(cfg.denom, cfg.denom.minExp) > 0 && Decodes(cfg, call)
    requires Validate(cfg, env, s, AsUnloadFromOutput(value, index, revision, proofs), call).Some?
    ensures !Dead(s.rec, R.RingKey(value, index), R.Alias(proofs[0].member))
    ensures Dead(Transact(cfg, env, s, AsUnloadFromOutput(value, index, revision, proofs), call).rec,
                 R.RingKey(value, index), R.Alias(proofs[0].member))
  {
    var origin := UnloadToken(proofs, FromOutput(value, index));
    FeeAliasMarked(cfg, s, value, index, revision, proofs);
    FeeAliasStaysMarked(cfg, env, Prepare(s, origin), call, proofs, value, index);
  }

  lemma FeeAliasMarked(cfg: Config, s: State, value: int, index: nat, revision: nat, proofs: seq<R.Proof>)
    requires RI.RemovedInOrder(s.rec) && FeeProofOk(cfg, s, value, index, revision, proofs)
    ensures !Dead(s.rec, R.RingKey(value, index), R.Alias(proofs[0].member))
    ensures Dead(Prepare(s, UnloadToken(proofs, FromOutput(value, index))).rec, R.RingKey(value, index), R.Alias(proofs[0].member))
  {
    LiveRing(s.rec, value, index);
  }

  lemma FeeAliasStaysMarked(cfg: Config, env: Env, p: State, call: Call, proofs: seq<R.Proof>, value: int, index: nat)
    requires Amount(cfg.denom, cfg.denom.minExp) > 0 && proofs != []
    requires Dead(p.rec, R.RingKey(value, index), R.Alias(proofs[0].member))
    ensures var origin := UnloadToken(proofs, FromOutput(value, index));
      match Dispatch(cfg, env, p, call, origin)
      case Some(t) => Dead(PostSuccess(t, origin).rec, R.RingKey(value, index), R.Alias(proofs[0].member))
      case None => Dead(PostFailure(cfg, p, origin).rec, R.RingKey(value, index), R.Alias(proofs[0].member))
  {
    var origin := UnloadToken(proofs, FromOutput(value, index));
    if Dispatch(cfg, env, p, call, origin).Some? {
      DispatchGrows(cfg, env, p, call, origin);
      GrowKeepsDead(p.rec, Dispatch(cfg, env, p, call, origin).value.rec, R.RingKey(value, index), R.Alias(proofs[0].member));
    }
  }

  // ---------------------------------------------------------------------------------------------
  // Expiry: a ring that may be cleaned is no longer spendable
  // ---------------------------------------------------------------------------------------------

  predicate ExpiredForSpending(now: nat, sealedAt: nat, expiry: nat) {
    now >= SatAdd(sealedAt, expiry, U64_MAX)
  }

  /** The `u32` clean-up clock never runs ahead of the `u64` spending clock, exactly when expiry fits. */
  lemma ExpiryClocksAgree(sealedAt: nat, expiry: nat)
    requires sealedAt <= U32_MAX && expiry <= U32_MAX
    ensures (forall now: nat :: now <= U64_MAX && R.Expired32(now, sealedAt, expiry) ==> ExpiredForSpending(now, sealedAt, expiry))
       <==> sealedAt + expiry <= U32_MAX
  {
    if sealedAt + expiry <= U32_MAX {
      forall now: nat | now <= U64_MAX && R.Expired32(now, sealedAt, expiry)
        ensures ExpiredForSpending(now, sealedAt, expiry)
      {
        assert AsU32(now) <= now;
      }
    } else {
      assert R.Expired32(U32_MAX, sealedAt, expiry) && !ExpiredForSpending(U32_MAX, sealedAt, expiry);
    }
  }

  /** At no time may the next ring be cleaned while some revision of it could still be spent. */
  ghost predicate NeverBoth(rec: R.Storage, expiry: nat, v: int) {
    forall now: nat, revision: nat :: now <= U64_MAX && R.CanClean(rec, now, expiry, v) ==>
      !R.Spendable(rec, now, expiry, v, R.NextToClean(rec.lastRemoved, v), revision)
  }

  /**
    The ring that is next to be cleaned is never both cleanable and spendable, if and only if its
    sealing time plus the expiry fits 32 bits, or it has no root left to spend against.
  */
  lemma CleanableIsUnspendable(rec: R.Storage, expiry: nat, v: int)
    requires v in rec.collections && R.NextToClean(rec.lastRemoved, v) < |rec.collections[v].rings| && expiry <= U32_MAX
    requires var ring := rec.collections[v].rings[R.NextToClean(rec.lastRemoved, v)];
      !ring.removed && ring.sealedAt.Some? && ring.sealedAt.value <= U32_MAX
    ensures var ring := rec.collections[v].rings[R.NextToClean(rec.lastRemoved, v)];
      NeverBoth(rec, expiry, v) <==> ring.sealedAt.value + expiry <= U32_MAX || ring.revisions == {}
  {
    var i := R.NextToClean(rec.lastRemoved, v);
    var ring := rec.collections[v].rings[i];
    var at := ring.sealedAt.value;
    ExpiryClocksAgree(at, expiry);
    if at + expiry > U32_MAX && ring.revisions != {} {
      var now: nat :| now <= U64_MAX && R.Expired32(now, at, expiry) && !ExpiredForSpending(now, at, expiry);
      var revision :| revision in ring.revisions;
      assert R.CanClean(rec, now, expiry, v) && R.Spendable(rec, now, expiry, v, i, revision);
    }
  }

  // ---------------------------------------------------------------------------------------------
  // Nobody else's coin
  // ---------------------------------------------------------------------------------------------

  ghost predicate Keeps(coins: Coins, later: Coins, a: Account) {
    a in coins ==> a in later && later[a] == coins[a]
  }

  lemma MintKeeps(cfg: Config, coins: Coins, into: seq<Group>, age: nat, units: nat, a: Account)
    requires ValidSplit(cfg.denom, cfg.maxSplit, coins.Keys, units, into)
    ensures Keeps(coins, Mint(coins, Outputs(into), age), a)
  {
    SplitIsFresh(cfg.denom, cfg.maxSplit, coins, units, into);
    MintContents(coins, Outputs(into), age);
  }

  lemma CoinCallKeepsOthers(cfg: Config, env: Env, s: State, who: Account, call: Call, a: Account)
    requires Amount(cfg.denom, cfg.denom.minExp) > 0 && who in s.coins && a != who
    requires CoinCallOk(cfg, env, s, who, s.coins[who], call)
    ensures Keeps(s.coins, Execute(cfg, env, s, call, CoinOrigin(who, s.coins[who])).coins, a)
  {
    var p := s.(coins := s.coins - {who});
    match call {
      case Split(into) =>
        var units := CoinUnit(cfg.denom, s.coins[who].value).value;
        SplitAfterTake(cfg.denom, cfg.maxSplit, s.coins, who, units, into);
        MintKeeps(cfg, p.coins, into, SatAdd(s.coins[who].age, 1, U16_MAX), units, a);
      case _ =>
    }
  }

  lemma {:induction false} LoadUnpaidCoins(cfg: Config, env: Env, s: State, items: seq<R.Voucher>)
    requires DispatchLoadUnpaid(cfg, env, s, items).Some?
    ensures DispatchLoadUnpaid(cfg, env, s, items).value.coins == s.coins
    decreases |items|
  {
    if items != [] {
      LoadUnpaidCoins(cfg, env, s, items[..|items| - 1]);
    }
  }

  lemma {:induction false} ProcessInputsCoins(cfg: Config, s: State, inputs: seq<Input>, proofs: seq<R.Proof>)
    requires ProcessInputs(cfg, s, inputs, proofs).Some?
    ensures ProcessInputs(cfg, s, inputs, proofs).value.coins == s.coins
    decreases |inputs|
  {
    if inputs != [] {
      var n := |inputs| - 1;
      ProcessInputsCoins(cfg, s, inputs[..n], proofs[..|proofs| - |inputs[n].aliases|]);
    }
  }

  lemma OtherCallsKeepCoins(cfg: Config, env: Env, s: State, call: Call, origin: Origin, a: Account)
    requires Amount(cfg.denom, cfg.denom.minExp) > 0 && !origin.CoinOrigin?
    requires call.UnloadIntoCoin? ==> call.to !in s.coins
    requires Dispatch(cfg, env, s, call, origin).Some?
    ensures Keeps(s.coins, Dispatch(cfg, env, s, call, origin).value.coins, a)
  {
    match (call, origin) {
      case (LoadUnpaid(items), InfallibleUnpaid(_)) => LoadUnpaidCoins(cfg, env, s, items);
      case (UnloadIntoCoins(input, into, maxFee), UnloadToken(proofs, fee)) =>
        var units := ExpectedUnits(cfg.denom, input.value, |input.aliases|, maxFee).value;
        MintKeeps(cfg, s.coins, into, 1, units, a);
      case (UnloadSigned(inputs, proofs, _), Signed(_)) => ProcessInputsCoins(cfg, s, inputs, proofs);
      case _ =>
    }
  }

  /** Only a transaction of the coin's own account can change or remove the coin. */
  lemma OthersCoinsUntouched(cfg: Config, s: State, step: Step, a: Account)
    requires Amount(cfg.denom, cfg.denom.minExp) > 0
    requires !(step.Tx? && step.ext == AsCoin(a))
    ensures Keeps(s.coins, Next(cfg, s, step).coins, a)
  {
    if step.Tx? && Decodes(cfg, step.call) && Validate(cfg, step.env, s, step.ext, step.call).Some? {
      var origin := Validate(cfg, step.env, s, step.ext, step.call).value;
      if step.ext.AsCoin? {
        CoinCallKeepsOthers(cfg, step.env, s, step.ext.who, step.call, a);
      } else {
        var p := Prepare(s, origin);
        assert p.coins == s.coins;
        if Dispatch(cfg, step.env, p, step.call, origin).Some? {
          OtherCallsKeepCoins(cfg, step.env, p, step.call, origin, a);
        }
      }
    }
  }
}
