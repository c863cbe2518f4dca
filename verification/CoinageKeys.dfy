/**
  What one loaded key can yield over whole runs. A key may be loaded again after its ring was
  cleaned, and keeps its alias then; so pay-outs are counted against loads, per value and key.
*/
module CoinageKeys {
  import opened Prelude
  import opened Denomination
  import opened SplitValidation
  import opened Coinage
  import opened CoinageRuns
  import opened CoinageSpending
  import R = Recyclers
  import RI = RecyclerInvariant

  // ---------------------------------------------------------------------------------------------
  // Unspent places of a key
  // ---------------------------------------------------------------------------------------------

  ghost function RingUnspent(marks: map<R.RingKey, set<R.Alias>>, v: int, i: nat, ring: R.Ring, m: R.Member): nat {
    if ring.removed || R.Alias(m) in R.MarksOf(marks, R.RingKey(v, i)) then 0 else multiset(ring.members)[m]
  }

  ghost function RingsUnspent(marks: map<R.RingKey, set<R.Alias>>, v: int, rings: seq<R.Ring>, m: R.Member): nat
    decreases |rings|
  {
    if rings == [] then 0
    else
      var n := |rings| - 1;
      RingsUnspent(marks, v, rings[..n], m) + RingUnspent(marks, v, n, rings[n], m)
  }

  /** Places where the key waits, or sits in a live ring with its alias unmarked, in the recyclers of value `v`. */
  ghost function Unspent(rec: R.Storage, v: int, m: R.Member): nat {
    multiset(R.CollectionOf(rec, v).queue)[m] + RingsUnspent(rec.marks, v, R.CollectionOf(rec, v).rings, m)
  }

  ghost predicate RingDrops(m1: map<R.RingKey, set<R.Alias>>, r1: R.Ring, m2: map<R.RingKey, set<R.Alias>>, r2: R.Ring,
                            v: int, j: nat, m: R.Member, d: nat) {
    RingUnspent(m1, v, j, r1, m) + d <= RingUnspent(m2, v, j, r2, m)
  }

  /** Ring by ring no more than before, and at ring `i` at least `d` fewer. */
  lemma {:induction false} RingsDrop(m1: map<R.RingKey, set<R.Alias>>, r1: seq<R.Ring>, m2: map<R.RingKey, set<R.Alias>>, r2: seq<R.Ring>,
                                     v: int, m: R.Member, i: nat, d: nat)
    requires |r1| == |r2| && (d > 0 ==> i < |r1|)
    requires forall j :: 0 <= j < |r1| ==> RingDrops(m1, r1[j], m2, r2[j], v, j, m, if j == i then d else 0)
    ensures RingsUnspent(m1, v, r1, m) + (if i < |r1| then d else 0) <= RingsUnspent(m2, v, r2, m)
    decreases |r1|
  {
    if r1 != [] {
      var n := |r1| - 1;
      var f1, f2 := r1[..n], r2[..n];
      assert forall j :: 0 <= j < n ==> f1[j] == r1[j] && f2[j] == r2[j];
      RingsDrop(m1, f1, m2, f2, v, m, i, if i < n then d else 0);
      assert RingDrops(m1, r1[n], m2, r2[n], v, n, m, if n == i then d else 0);
    }
  }

  // ---------------------------------------------------------------------------------------------
  // Storage operations
  // ---------------------------------------------------------------------------------------------

  lemma EnqueueUnspent(rec: R.Storage, w: int, x: R.Member, v: int, m: R.Member)
    ensures Unspent(R.Enqueue(rec, w, x), v, m) == Unspent(rec, v, m) + (if w == v && x == m then 1 else 0)
  {
    var c := R.CollectionOf(rec, w);
    assert multiset(c.queue + [x]) == multiset(c.queue) + multiset{x};
  }

  /** Occurrences of one voucher. */
  ghost function VoucherCount(vouchers: seq<R.Voucher>, v: int, m: R.Member): nat {
    multiset(vouchers)[R.Voucher(v, m)]
  }

  lemma {:induction false} EnqueueAllUnspent(rec: R.Storage, vouchers: seq<R.Voucher>, v: int, m: R.Member)
    ensures Unspent(R.EnqueueAll(rec, vouchers), v, m) == Unspent(rec, v, m) + VoucherCount(vouchers, v, m)
    decreases |vouchers|
  {
    if vouchers != [] {
      var n := |vouchers| - 1;
      EnqueueAllUnspent(rec, vouchers[..n], v, m);
      EnqueueUnspent(R.EnqueueAll(rec, vouchers[..n]), vouchers[n].value, vouchers[n].member, v, m);
      assert vouchers == vouchers[..n] + [vouchers[n]];
    }
  }

  /** How often an alias list of value `w` names the key's alias. */
  ghost function Named(w: int, aliases: seq<R.Alias>, v: int, m: R.Member): nat {
    if w == v then multiset(aliases)[R.Alias(m)] else 0
  }

  lemma {:induction false} DistinctNamedOnce(aliases: seq<R.Alias>, a: R.Alias)
    requires Distinct(aliases)
    ensures multiset(aliases)[a] == if a in aliases then 1 else 0
    decreases |aliases|
  {
    if aliases != [] {
      var n := |aliases| - 1;
      assert aliases == aliases[..n] + [aliases[n]];
      DistinctNamedOnce(aliases[..n], a);
    }
  }

  /** Marking aliases of a live ring that were unmarked spends one place for each. */
  lemma MarkUnspent(rec: R.Storage, w: int, i: nat, aliases: seq<R.Alias>, v: int, m: R.Member)
    requires w in rec.collections && i < |rec.collections[w].rings| && !rec.collections[w].rings[i].removed
    requires R.AllUnspent(R.MarksOf(rec.marks, R.RingKey(w, i)), aliases)
    requires forall j :: 0 <= j < |aliases| ==> aliases[j].of in rec.collections[w].rings[i].members
    ensures Unspent(R.MarkAll(rec, R.RingKey(w, i), Elements(aliases)), v, m) + Named(w, aliases, v, m) <= Unspent(rec, v, m)
  {
    var t, rings := R.MarkAll(rec, R.RingKey(w, i), Elements(aliases)), R.CollectionOf(rec, v).rings;
    var d := Named(w, aliases, v, m);
    DistinctNamedOnce(aliases, R.Alias(m));
    forall j | 0 <= j < |rings|
      ensures RingDrops(t.marks, rings[j], rec.marks, rings[j], v, j, m, if j == i then d else 0)
    {
      MarkedRing(rec, w, i, aliases, v, m, j);
    }
    RingsDrop(t.marks, rings, rec.marks, rings, v, m, i, d);
  }

  lemma MarkedRing(rec: R.Storage, w: int, i: nat, aliases: seq<R.Alias>, v: int, m: R.Member, j: nat)
    requires w in rec.collections && i < |rec.collections[w].rings| && !rec.collections[w].rings[i].removed
    requires R.AllUnspent(R.MarksOf(rec.marks, R.RingKey(w, i)), aliases)
    requires forall k :: 0 <= k < |aliases| ==> aliases[k].of in rec.collections[w].rings[i].members
    requires j < |R.CollectionOf(rec, v).rings|
    ensures var t, ring := R.MarkAll(rec, R.RingKey(w, i), Elements(aliases)), R.CollectionOf(rec, v).rings[j];
      RingDrops(t.marks, ring, rec.marks, ring, v, j, m, if j == i then Named(w, aliases, v, m) else 0)
  {
    DistinctNamedOnce(aliases, R.Alias(m));
    var t := R.MarkAll(rec, R.RingKey(w, i), Elements(aliases));
    if v == w && j == i && R.Alias(m) in aliases {
      var k :| 0 <= k < |aliases| && aliases[k] == R.Alias(m);
      assert aliases[k].of in rec.collections[w].rings[i].members;
      assert R.Alias(m) in Elements(aliases);
      assert multiset(rec.collections[w].rings[i].members)[m] >= 1;
    } else {
      assert R.MarksOf(rec.marks, R.RingKey(v, j)) <= R.MarksOf(t.marks, R.RingKey(v, j));
    }
  }

  lemma CleanUnspent(rec: R.Storage, w: int, v: int, m: R.Member)
    requires w in rec.collections && R.NextToClean(rec.lastRemoved, w) < |rec.collections[w].rings|
    ensures Unspent(R.Clean(rec, w), v, m) <= Unspent(rec, v, m)
  {
    var t := R.Clean(rec, w);
    var r1, r2 := R.CollectionOf(t, v).rings, R.CollectionOf(rec, v).rings;
    forall j | 0 <= j < |r1|
      ensures RingDrops(t.marks, r1[j], rec.marks, r2[j], v, j, m, 0)
    {
    }
    RingsDrop(t.marks, r1, rec.marks, r2, v, m, 0, 0);
  }

  /** Deleted marks belong to removed rings, which hold no unspent place. */
  lemma DustUnspent(rec: R.Storage, k: R.RingKey, batch: set<R.Alias>, v: int, m: R.Member)
    requires RI.DustIsDead(rec) && RI.RemovedInOrder(rec) && k in rec.dusting
    ensures Unspent(R.CleanDust(rec, k, batch), v, m) <= Unspent(rec, v, m)
  {
    var t, rings := R.CleanDust(rec, k, batch), R.CollectionOf(rec, v).rings;
    forall j | 0 <= j < |rings|
      ensures RingDrops(t.marks, rings[j], rec.marks, rings[j], v, j, m, 0)
    {
      if R.RingKey(v, j) != k {
        assert R.MarksOf(t.marks, R.RingKey(v, j)) == R.MarksOf(rec.marks, R.RingKey(v, j));
      } else {
        assert rings[j].removed;
      }
    }
    RingsDrop(t.marks, rings, rec.marks, rings, v, m, 0, 0);
  }

  lemma OnboardUnspent(rec: R.Storage, w: int, startNew: bool, v: int, m: R.Member)
    requires R.CanOnboard(rec, w)
    ensures Unspent(R.Onboard(rec, w, startNew), v, m) <= Unspent(rec, v, m)
  {
    if w == v {
      var c := rec.collections[v];
      var t := R.Onboard(rec, v, startNew);
      var n := |c.rings|;
      assert c.queue == [c.queue[0]] + c.queue[1..];
      if |t.collections[v].rings| == n {
        JoinUnspent(rec.marks, v, c.rings, t.collections[v].rings, c.queue[0], m);
      } else {
        assert t.collections[v].rings[..n] == c.rings;
      }
    }
  }

  lemma JoinUnspent(marks: map<R.RingKey, set<R.Alias>>, v: int, before: seq<R.Ring>, after: seq<R.Ring>, x: R.Member, m: R.Member)
    requires before != [] && |after| == |before| && after[..|before| - 1] == before[..|before| - 1]
    requires after[|before| - 1] == before[|before| - 1].(members := before[|before| - 1].members + [x])
    ensures RingsUnspent(marks, v, after, m) <= RingsUnspent(marks, v, before, m) + (if x == m then 1 else 0)
  {
  }

  lemma RebuildUnspent(rec: R.Storage, w: int, i: nat, revisions: set<nat>, sealedAt: Option<nat>, v: int, m: R.Member)
    requires w in rec.collections && i < |rec.collections[w].rings|
    ensures Unspent(R.Rebuild(rec, w, i, revisions, sealedAt), v, m) <= Unspent(rec, v, m)
  {
    var t := R.Rebuild(rec, w, i, revisions, sealedAt);
    var r1, r2 := R.CollectionOf(t, v).rings, R.CollectionOf(rec, v).rings;
    forall j | 0 <= j < |r1|
      ensures RingDrops(t.marks, r1[j], rec.marks, r2[j], v, j, m, 0)
    {
    }
    RingsDrop(t.marks, r1, rec.marks, r2, v, m, 0, 0);
  }

  // ---------------------------------------------------------------------------------------------
  // Calls
  // ---------------------------------------------------------------------------------------------

  ghost function InputNames(input: Input, v: int, m: R.Member): nat {
    Named(input.value, input.aliases, v, m)
  }

  ghost function InputsName(inputs: seq<Input>, v: int, m: R.Member): nat
    decreases |inputs|
  {
    if inputs == [] then 0 else InputsName(inputs[..|inputs| - 1], v, m) + InputNames(inputs[|inputs| - 1], v, m)
  }

  /** How often a call asks to unload the key from recyclers of value `v`. */
  ghost function AsksFor(call: Call, v: int, m: R.Member): nat {
    match call
    case UnloadIntoCoin(input, _) => InputNames(input, v, m)
    case UnloadIntoAsset(input, _) => InputNames(input, v, m)
    case UnloadMixed(input, _, _, _) => InputNames(input, v, m)
    case UnloadIntoCoins(input, _, _) => InputNames(input, v, m)
    case UnloadSigned(inputs, _, _) => InputsName(inputs, v, m)
    case _ => 0
  }

  /** How often a call loads the key at value `v`; a coin is loaded at its own value. */
  ghost function LoadsFor(call: Call, origin: Origin, v: int, m: R.Member): nat {
    match call
    case LoadCoin(member) => if origin.CoinOrigin? && origin.coin.value == v && member == m then 1 else 0
    case LoadExternal(value, member) => if value == v && member == m then 1 else 0
    case LoadUnpaid(items) => VoucherCount(items, v, m)
    case UnloadMixed(_, _, _, vouchers) => VoucherCount(vouchers, v, m)
    case _ => 0
  }

  lemma UnloadNames(cfg: Config, s: State, input: Input, proofs: seq<R.Proof>, v: int, m: R.Member)
    requires Unload(cfg, s, input, proofs).Some?
    ensures Unspent(Unload(cfg, s, input, proofs).value.rec, v, m) + InputNames(input, v, m) <= Unspent(s.rec, v, m)
  {
    var ring := s.rec.collections[input.value].rings[input.index];
    forall j | 0 <= j < |input.aliases|
      ensures input.aliases[j].of in ring.members
    {
      assert R.ProofHolds(ring, proofs[j]) && R.Alias(proofs[j].member) == input.aliases[j];
    }
    MarkUnspent(s.rec, input.value, input.index, input.aliases, v, m);
  }

  /** Aliases left to spend at dispatch: all of them, or all but the premarked first. */
  ghost function StillToSpend(input: Input, fee: FeeMode, v: int, m: R.Member): nat {
    if fee.Prepaid? then InputNames(input, v, m)
    else if input.aliases == [] then 0
    else InputNames(Rest(input), v, m)
  }

  lemma RestNames(cfg: Config, s: State, input: Input, proofs: seq<R.Proof>, v: int, m: R.Member)
    requires input.aliases != [] && proofs != []
    requires |input.aliases| == 1 || Unload(cfg, s, Rest(input), proofs[1..]).Some?
    ensures var t := if |input.aliases| == 1 then s else Unload(cfg, s, Rest(input), proofs[1..]).value;
      Unspent(t.rec, v, m) + InputNames(Rest(input), v, m) <= Unspent(s.rec, v, m)
  {
    if |input.aliases| > 1 {
      UnloadNames(cfg, s, Rest(input), proofs[1..], v, m);
    } else {
      assert input.aliases[1..] == [];
    }
  }

  lemma ProcessInputNames(cfg: Config, s: State, input: Input, proofs: seq<R.Proof>, fee: FeeMode, v: int, m: R.Member)
    requires ProcessInput(cfg, s, input, proofs, fee).Some?
    ensures Unspent(ProcessInput(cfg, s, input, proofs, fee).value.rec, v, m) + StillToSpend(input, fee, v, m) <= Unspent(s.rec, v, m)
  {
    if fee.Prepaid? {
      UnloadNames(cfg, s, input, proofs, v, m);
    } else {
      RestNames(cfg, s, input, proofs, v, m);
    }
  }

  lemma ForCoinsNames(cfg: Config, env: Env, s: State, input: Input, proofs: seq<R.Proof>, fee: FeeMode, maxFee: nat, v: int, m: R.Member)
    requires ProcessForCoins(cfg, env, s, input, proofs, fee, maxFee).Some?
    ensures Unspent(ProcessForCoins(cfg, env, s, input, proofs, fee, maxFee).value.rec, v, m) + StillToSpend(input, fee, v, m) <= Unspent(s.rec, v, m)
  {
    if fee.Prepaid? {
      UnloadNames(cfg, s, input, proofs, v, m);
    } else {
      RestNames(cfg, s, input, proofs, v, m);
    }
  }

  lemma MixedNames(cfg: Config, env: Env, s: State, input: Input, proofs: seq<R.Proof>, fee: FeeMode, to: Account, external: nat,
                   vouchers: seq<R.Voucher>, v: int, m: R.Member)
    requires DispatchMixed(cfg, env, s, input, proofs, fee, to, external, vouchers).Some?
    ensures Unspent(DispatchMixed(cfg, env, s, input, proofs, fee, to, external, vouchers).value.rec, v, m) + StillToSpend(input, fee, v, m)
         <= Unspent(s.rec, v, m) + VoucherCount(vouchers, v, m)
  {
    ProcessInputNames(cfg, s, input, proofs, fee, v, m);
    EnqueueAllUnspent(ProcessInput(cfg, s, input, proofs, fee).value.rec, vouchers, v, m);
  }

  /** What is left to spend when a call is dispatched under an unload token. */
  ghost function CallToSpend(call: Call, fee: FeeMode, v: int, m: R.Member): nat {
    match call
    case UnloadIntoCoin(input, _) => StillToSpend(input, fee, v, m)
    case UnloadIntoAsset(input, _) => StillToSpend(input, fee, v, m)
    case UnloadMixed(input, _, _, _) => StillToSpend(input, fee, v, m)
    case UnloadIntoCoins(input, _, _) => StillToSpend(input, fee, v, m)
    case _ => 0
  }

  lemma TokenCallNames(cfg: Config, env: Env, s: State, call: Call, proofs: seq<R.Proof>, fee: FeeMode, v: int, m: R.Member)
    requires Amount(cfg.denom, cfg.denom.minExp) > 0 && Dispatch(cfg, env, s, call, UnloadToken(proofs, fee)).Some?
    ensures Unspent(Dispatch(cfg, env, s, call, UnloadToken(proofs, fee)).value.rec, v, m) + CallToSpend(call, fee, v, m)
         <= Unspent(s.rec, v, m) + LoadsFor(call, UnloadToken(proofs, fee), v, m)
  {
    match call {
      case UnloadIntoCoin(input, _) => UnloadNames(cfg, s, input, proofs, v, m);
      case UnloadIntoAsset(input, _) => ProcessInputNames(cfg, s, input, proofs, fee, v, m);
      case UnloadMixed(input, to, external, vouchers) => MixedNames(cfg, env, s, input, proofs, fee, to, external, vouchers, v, m);
      case UnloadIntoCoins(input, _, maxFee) => ForCoinsNames(cfg, env, s, input, proofs, fee, maxFee, v, m);
    }
  }

  lemma {:induction false} InputsNames(cfg: Config, s: State, inputs: seq<Input>, proofs: seq<R.Proof>, v: int, m: R.Member)
    requires ProcessInputs(cfg, s, inputs, proofs).Some?
    ensures Unspent(ProcessInputs(cfg, s, inputs, proofs).value.rec, v, m) + InputsName(inputs, v, m) <= Unspent(s.rec, v, m)
    decreases |inputs|
  {
    if inputs != [] {
      var n := |inputs| - 1;
      var own := |inputs[n].aliases|;
      var front, back := proofs[..|proofs| - own], proofs[|proofs| - own..];
      InputsNames(cfg, s, inputs[..n], front, v, m);
      UnloadNames(cfg, ProcessInputs(cfg, s, inputs[..n], front).value, inputs[n], back, v, m);
    }
  }

  lemma LoadOneUnspent(cfg: Config, env: Env, s: State, w: int, x: R.Member, v: int, m: R.Member)
    requires LoadOne(cfg, env, s, w, x).Some?
    ensures Unspent(LoadOne(cfg, env, s, w, x).value.rec, v, m) == Unspent(s.rec, v, m) + (if w == v && x == m then 1 else 0)
  {
    EnqueueUnspent(s.rec, w, x, v, m);
  }

  lemma {:induction false} UnpaidUnspent(cfg: Config, env: Env, s: State, items: seq<R.Voucher>, v: int, m: R.Member)
    requires DispatchLoadUnpaid(cfg, env, s, items).Some?
    ensures Unspent(DispatchLoadUnpaid(cfg, env, s, items).value.rec, v, m) == Unspent(s.rec, v, m) + VoucherCount(items, v, m)
    decreases |items|
  {
    if items != [] {
      var n := |items| - 1;
      UnpaidUnspent(cfg, env, s, items[..n], v, m);
      LoadOneUnspent(cfg, env, DispatchLoadUnpaid(cfg, env, s, items[..n]).value, items[n].value, items[n].member, v, m);
      assert items == items[..n] + [items[n]];
    }
  }

  // ---------------------------------------------------------------------------------------------
  // One step
  // ---------------------------------------------------------------------------------------------

  /** The dispatch of the step, when it is reached and succeeds. */
  ghost predicate Succeeds(cfg: Config, s: State, step: Step)
    requires Amount(cfg.denom, cfg.denom.minExp) > 0
  {
    OriginOf(cfg, s, step).Some?
    && var origin := OriginOf(cfg, s, step).value;
       Dispatch(cfg, step.env, Prepare(s, origin), step.call, origin).Some?
  }

  /** Coins' worth the step pays out for the key at value `v`, counting every occurrence of its alias. */
  ghost function PaysFor(cfg: Config, s: State, step: Step, v: int, m: R.Member): nat
    requires Amount(cfg.denom, cfg.denom.minExp) > 0
  {
    if Succeeds(cfg, s, step) then AsksFor(step.call, v, m) else 0
  }

  /** Coins' worth the step loads under the key at value `v`. */
  ghost function Loads(cfg: Config, s: State, step: Step, v: int, m: R.Member): nat
    requires Amount(cfg.denom, cfg.denom.minExp) > 0
  {
    if Succeeds(cfg, s, step) then LoadsFor(step.call, OriginOf(cfg, s, step).value, v, m) else 0
  }

  ghost predicate StepAccount(cfg: Config, s: State, step: Step, t: State, v: int, m: R.Member)
    requires Amount(cfg.denom, cfg.denom.minExp) > 0
  {
    PaysFor(cfg, s, step, v, m) + Unspent(t.rec, v, m) <= Unspent(s.rec, v, m) + Loads(cfg, s, step, v, m)
  }

  /** `prepare` of a from-output unload already spends the first alias. */
  lemma PremarkUnspent(cfg: Config, env: Env, s: State, ext: Extension, call: Call, proofs: seq<R.Proof>, fee: FeeMode, v: int, m: R.Member)
    requires Inv(cfg, s) && fee.FromOutput? && Validate(cfg, env, s, ext, call) == Some(UnloadToken(proofs, fee))
    ensures proofs != [] && FirstAlias(call) == Some(R.Alias(proofs[0].member))
    ensures Unspent(Prepare(s, UnloadToken(proofs, fee)).rec, v, m) + Named(fee.value, [R.Alias(proofs[0].member)], v, m) <= Unspent(s.rec, v, m)
  {
    var first := [R.Alias(proofs[0].member)];
    assert Elements(first) == {first[0]};
    MarkUnspent(s.rec, fee.value, fee.index, first, v, m);
  }

  /** First and rest make up the whole list. */
  lemma FirstAndRest(input: Input, w: int, first: R.Alias, v: int, m: R.Member)
    requires input.aliases != [] && input.aliases[0] == first && input.value == w
    ensures InputNames(input, v, m) == Named(w, [first], v, m) + InputNames(Rest(input), v, m)
  {
    assert input.aliases == [first] + input.aliases[1..];
  }

  /** Under a from-output fee a call asks for the premarked alias and what is left to spend. */
  lemma FromOutputNames(cfg: Config, env: Env, s: State, call: Call, proofs: seq<R.Proof>, fee: FeeMode, v: int, m: R.Member)
    requires Amount(cfg.denom, cfg.denom.minExp) > 0 && fee.FromOutput? && proofs != [] && FirstAlias(call) == Some(R.Alias(proofs[0].member))
    requires Dispatch(cfg, env, s, call, UnloadToken(proofs, fee)).Some?
    ensures AsksFor(call, v, m) == Named(fee.value, [R.Alias(proofs[0].member)], v, m) + CallToSpend(call, fee, v, m)
  {
    FirstAndRest(call.input, fee.value, R.Alias(proofs[0].member), v, m);
  }

  lemma TokenStepAccount(cfg: Config, s: State, step: Step, proofs: seq<R.Proof>, fee: FeeMode, v: int, m: R.Member)
    requires Inv(cfg, s) && Amount(cfg.denom, cfg.denom.minExp) > 0 && OriginOf(cfg, s, step) == Some(UnloadToken(proofs, fee))
    ensures StepAccount(cfg, s, step, Next(cfg, s, step), v, m)
  {
    var origin := UnloadToken(proofs, fee);
    var p := Prepare(s, origin);
    if fee.FromOutput? {
      PremarkUnspent(cfg, step.env, s, step.ext, step.call, proofs, fee, v, m);
    }
    if Dispatch(cfg, step.env, p, step.call, origin).Some? {
      TokenCallNames(cfg, step.env, p, step.call, proofs, fee, v, m);
      if fee.FromOutput? {
        FromOutputNames(cfg, step.env, p, step.call, proofs, fee, v, m);
      } else {
        PrepaidAsks(cfg, step.env, p, step.call, proofs, v, m);
      }
    }
  }

  lemma PrepaidAsks(cfg: Config, env: Env, s: State, call: Call, proofs: seq<R.Proof>, v: int, m: R.Member)
    requires Amount(cfg.denom, cfg.denom.minExp) > 0 && Dispatch(cfg, env, s, call, UnloadToken(proofs, Prepaid)).Some?
    ensures AsksFor(call, v, m) == CallToSpend(call, Prepaid, v, m)
  {
  }

  lemma OtherStepAccount(cfg: Config, s: State, step: Step, origin: Origin, v: int, m: R.Member)
    requires Inv(cfg, s) && Amount(cfg.denom, cfg.denom.minExp) > 0
    requires OriginOf(cfg, s, step) == Some(origin) && !origin.UnloadToken?
    ensures StepAccount(cfg, s, step, Next(cfg, s, step), v, m)
  {
    var p := Prepare(s, origin);
    assert p.rec == s.rec;
    if Dispatch(cfg, step.env, p, step.call, origin).Some? {
      PlainDispatchAccount(cfg, step.env, s, p, step.ext, step.call, origin, v, m);
    }
  }

  lemma PlainDispatchAccount(cfg: Config, env: Env, s: State, p: State, ext: Extension, call: Call, origin: Origin, v: int, m: R.Member)
    requires Inv(cfg, s) && Amount(cfg.denom, cfg.denom.minExp) > 0 && p.rec == s.rec && !origin.UnloadToken?
    requires Validate(cfg, env, s, ext, call) == Some(origin) && Dispatch(cfg, env, p, call, origin).Some?
    ensures AsksFor(call, v, m) + Unspent(Dispatch(cfg, env, p, call, origin).value.rec, v, m)
         <= Unspent(s.rec, v, m) + LoadsFor(call, origin, v, m)
  {
    match call {
      case LoadCoin(_) => LoadAccount(cfg, env, p, call, origin, v, m);
      case LoadExternal(_, _) => LoadAccount(cfg, env, p, call, origin, v, m);
      case LoadUnpaid(_) => LoadAccount(cfg, env, p, call, origin, v, m);
      case UnloadSigned(inputs, proofs, _) => SignedAccount(cfg, env, p, call, origin, v, m);
      case CleanRecycler(_) => MaintenanceAccount(cfg, env, s, p, ext, call, origin, v, m);
      case CleanRecyclerDust(_, _) => MaintenanceAccount(cfg, env, s, p, ext, call, origin, v, m);
      case _ =>
    }
  }

  lemma LoadAccount(cfg: Config, env: Env, p: State, call: Call, origin: Origin, v: int, m: R.Member)
    requires Amount(cfg.denom, cfg.denom.minExp) > 0 && Dispatch(cfg, env, p, call, origin).Some?
    requires call.LoadCoin? || call.LoadExternal? || call.LoadUnpaid?
    ensures Unspent(Dispatch(cfg, env, p, call, origin).value.rec, v, m) <= Unspent(p.rec, v, m) + LoadsFor(call, origin, v, m)
  {
    match call {
      case LoadCoin(member) => EnqueueUnspent(p.rec, origin.coin.value, member, v, m);
      case LoadExternal(value, member) => LoadOneUnspent(cfg, env, p, value, member, v, m);
      case LoadUnpaid(items) => UnpaidUnspent(cfg, env, p, items, v, m);
    }
  }

  lemma SignedAccount(cfg: Config, env: Env, p: State, call: Call, origin: Origin, v: int, m: R.Member)
    requires Amount(cfg.denom, cfg.denom.minExp) > 0 && call.UnloadSigned? && Dispatch(cfg, env, p, call, origin).Some?
    ensures AsksFor(call, v, m) + Unspent(Dispatch(cfg, env, p, call, origin).value.rec, v, m) <= Unspent(p.rec, v, m)
  {
    InputsNames(cfg, p, call.inputs, call.proofs, v, m);
  }

  lemma MaintenanceAccount(cfg: Config, env: Env, s: State, p: State, ext: Extension, call: Call, origin: Origin, v: int, m: R.Member)
    requires Inv(cfg, s) && Amount(cfg.denom, cfg.denom.minExp) > 0 && p.rec == s.rec && (call.CleanRecycler? || call.CleanRecyclerDust?)
    requires Validate(cfg, env, s, ext, call) == Some(origin) && Dispatch(cfg, env, p, call, origin).Some?
    ensures Unspent(Dispatch(cfg, env, p, call, origin).value.rec, v, m) <= Unspent(s.rec, v, m)
  {
    match call {
      case CleanRecycler(value) => CleanUnspent(p.rec, value, v, m);
      case CleanRecyclerDust(k, batch) => DustUnspent(p.rec, k, batch, v, m);
    }
  }

  lemma StepAccounts(cfg: Config, s: State, step: Step, v: int, m: R.Member)
    requires Inv(cfg, s) && Amount(cfg.denom, cfg.denom.minExp) > 0
    ensures StepAccount(cfg, s, step, Next(cfg, s, step), v, m)
  {
    if OriginOf(cfg, s, step).Some? {
      var origin := OriginOf(cfg, s, step).value;
      if origin.UnloadToken? {
        TokenStepAccount(cfg, s, step, origin.proofs, origin.fee, v, m);
      } else {
        OtherStepAccount(cfg, s, step, origin, v, m);
      }
    } else if step.Onboard? {
      if R.CanOnboard(s.rec, step.value) {
        OnboardUnspent(s.rec, step.value, step.startNew, v, m);
      }
    } else if step.Rebuild? {
      if step.value in s.rec.collections && step.index < |s.rec.collections[step.value].rings| {
        RebuildUnspent(s.rec, step.value, step.index, step.revisions, step.sealedAt, v, m);
      }
    }
  }

  // ---------------------------------------------------------------------------------------------
  // Runs
  // ---------------------------------------------------------------------------------------------

  ghost function TotalPaid(cfg: Config, s: State, steps: seq<Step>, v: int, m: R.Member): nat
    requires Amount(cfg.denom, cfg.denom.minExp) > 0
    decreases |steps|
  {
    if steps == [] then 0
    else PaysFor(cfg, s, steps[0], v, m) + TotalPaid(cfg, Next(cfg, s, steps[0]), steps[1..], v, m)
  }

  ghost function TotalLoaded(cfg: Config, s: State, steps: seq<Step>, v: int, m: R.Member): nat
    requires Amount(cfg.denom, cfg.denom.minExp) > 0
    decreases |steps|
  {
    if steps == [] then 0
    else Loads(cfg, s, steps[0], v, m) + TotalLoaded(cfg, Next(cfg, s, steps[0]), steps[1..], v, m)
  }

  ghost predicate RunAccount(cfg: Config, s: State, steps: seq<Step>, v: int, m: R.Member)
    requires Amount(cfg.denom, cfg.denom.minExp) > 0
  {
    TotalPaid(cfg, s, steps, v, m) + Unspent(Run(cfg, s, steps).rec, v, m) <= Unspent(s.rec, v, m) + TotalLoaded(cfg, s, steps, v, m)
  }

  lemma AddStep(cfg: Config, s: State, steps: seq<Step>, t: State, v: int, m: R.Member)
    requires Amount(cfg.denom, cfg.denom.minExp) > 0 && steps != [] && t == Next(cfg, s, steps[0])
    requires StepAccount(cfg, s, steps[0], t, v, m) && RunAccount(cfg, t, steps[1..], v, m)
    ensures RunAccount(cfg, s, steps, v, m)
  {
  }

  lemma {:induction false} RunAccounts(cfg: Config, s: State, steps: seq<Step>, v: int, m: R.Member)
    requires ConfigOk(cfg) && Inv(cfg, s) && Amount(cfg.denom, cfg.denom.minExp) > 0
    ensures RunAccount(cfg, s, steps, v, m)
    decreases |steps|
  {
    if steps != [] {
      NextKeeps(cfg, s, steps[0]);
      RunAccounts(cfg, Next(cfg, s, steps[0]), steps[1..], v, m);
      StepAccounts(cfg, s, steps[0], v, m);
      AddStep(cfg, s, steps, Next(cfg, s, steps[0]), v, m);
    }
  }

  /**
    Over every run from genesis a key yields, at each value, no more coins than were loaded under it
    at that value: in whatever rings its alias turns up, and counting every occurrence.
  */
  lemma PaidOutAtMostLoaded(cfg: Config, now: nat, steps: seq<Step>, v: int, m: R.Member)
    requires ConfigOk(cfg)
    ensures Amount(cfg.denom, cfg.denom.minExp) > 0
    ensures TotalPaid(cfg, Genesis(now), steps, v, m) <= TotalLoaded(cfg, Genesis(now), steps, v, m)
  {
    MinPricePositive(cfg);
    GenesisInv(cfg, now);
    RunAccounts(cfg, Genesis(now), steps, v, m);
    assert Unspent(Genesis(now).rec, v, m) == 0;
  }
}
