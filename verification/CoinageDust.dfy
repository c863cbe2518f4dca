/**
  A family of runs after which the accounting equation of the tests fails, one for every accepted
  configuration, coin value and ring capacity. The member service takes its own steps in them: rings
  open when the last one is full, and are sealed by a build that finds them full
  (`pallets/members/src/lib.rs`, `support/src/traits/reality.rs`).
*/
module CoinageDust {
  import opened Prelude
  import opened Powers
  import opened Denomination
  import opened SplitValidation
  import opened Coinage
  import opened CoinageBalance
  import opened CoinageRuns
  import opened CoinageAccounting
  import R = Recyclers
  import RI = RecyclerInvariant

  // ---------------------------------------------------------------------------------------------
  // The member service as it works
  // ---------------------------------------------------------------------------------------------

  ghost predicate NoRoom(rings: seq<R.Ring>, capacity: nat) {
    rings == [] || |rings[|rings| - 1].members| >= capacity
  }

  /** A ring opens when the last one is full, and is sealed by a build that finds it full. */
  ghost predicate Served(capacity: nat, s: State, step: Step) {
    match step
    case Onboard(v, startNew) => R.CanOnboard(s.rec, v) ==> (startNew <==> NoRoom(s.rec.collections[v].rings, capacity))
    case Rebuild(v, i, _, sealedAt) =>
      sealedAt.Some? ==>
        && sealedAt.value == s.now && v in s.rec.collections
        && i < |s.rec.collections[v].rings| && |s.rec.collections[v].rings[i].members| == capacity
    case _ => true
  }

  /** The steps lead from `s` to `t`, and the member service could take its own. */
  ghost predicate Reaches(cfg: Config, capacity: nat, s: State, steps: seq<Step>, t: State)
    requires Amount(cfg.denom, cfg.denom.minExp) > 0
    decreases |steps|
  {
    if steps == [] then t == s
    else Served(capacity, s, steps[0]) && Reaches(cfg, capacity, Next(cfg, s, steps[0]), steps[1..], t)
  }

  lemma {:induction false} ReachesRun(cfg: Config, capacity: nat, s: State, steps: seq<Step>, t: State)
    requires Amount(cfg.denom, cfg.denom.minExp) > 0 && Reaches(cfg, capacity, s, steps, t)
    ensures Run(cfg, s, steps) == t
    decreases |steps|
  {
    if steps != [] {
      ReachesRun(cfg, capacity, Next(cfg, s, steps[0]), steps[1..], t);
    }
  }

  lemma {:induction false} ReachesThen(cfg: Config, capacity: nat, s: State, a: seq<Step>, t: State, b: seq<Step>, u: State)
    requires Amount(cfg.denom, cfg.denom.minExp) > 0
    requires Reaches(cfg, capacity, s, a, t) && Reaches(cfg, capacity, t, b, u)
    ensures Reaches(cfg, capacity, s, a + b, u)
    decreases |a|
  {
    if a == [] {
      assert a + b == b;
    } else {
      ReachesThen(cfg, capacity, Next(cfg, s, a[0]), a[1..], t, b, u);
      assert (a + b)[1..] == a[1..] + b;
    }
  }

  lemma OneStep(cfg: Config, capacity: nat, s: State, step: Step, t: State)
    requires Amount(cfg.denom, cfg.denom.minExp) > 0 && Served(capacity, s, step) && Next(cfg, s, step) == t
    ensures Reaches(cfg, capacity, s, [step], t)
  {
    assert [step][1..] == [];
    assert Reaches(cfg, capacity, t, [], t);
  }

  // ---------------------------------------------------------------------------------------------
  // A key joins
  // ---------------------------------------------------------------------------------------------

  function Willing(): Env {
    Env(None, true, true, R.LoadEnv({}, true, true), true, true, true)
  }

  /** A key is loaded from external assets and onboarded at once. */
  function JoinSteps(v: int, m: R.Member, startNew: bool): seq<Step> {
    [Tx(Willing(), NoExtension(7), LoadExternal(v, m))] + [Onboard(v, startNew)]
  }

  /** One coin of the value is paid in. */
  function Paying(cfg: Config, s: State, v: int): State {
    s.(held := s.held + RI.Price(cfg.price, v), flow := s.flow.(deposits := s.flow.deposits + RI.Price(cfg.price, v)))
  }

  function Queued(cfg: Config, s: State, v: int, m: R.Member): State {
    Paying(cfg, s, v).(rec := R.Enqueue(s.rec, v, m))
  }

  function Joined(cfg: Config, s: State, v: int, m: R.Member, rings: seq<R.Ring>): State {
    Paying(cfg, s, v).(rec := s.rec.(collections := s.rec.collections[v := R.Collection([], rings)], loaded := s.rec.loaded[m := v]))
  }

  function FreshRing(m: R.Member): R.Ring {
    R.Ring([m], None, {}, false)
  }

  lemma LoadTransaction(cfg: Config, s: State, v: int, m: R.Member)
    requires Amount(cfg.denom, cfg.denom.minExp) > 0 && m !in s.rec.loaded
    requires v in cfg.price && s.held + cfg.price[v] <= cfg.maxBalance
    ensures Next(cfg, s, Tx(Willing(), NoExtension(7), LoadExternal(v, m))) == Queued(cfg, s, v, m)
  {
    assert R.LoadSpec(Willing().load, s.rec, v, m) == Ok(R.Enqueue(s.rec, v, m));
    assert LoadOne(cfg, Willing(), s, v, m) == Some(Queued(cfg, s, v, m));
  }

  /** What onboarding makes of the only waiting key: a new ring, or one more member of the last. */
  lemma HeadJoins(rec: R.Storage, v: int, m: R.Member, startNew: bool, rings: seq<R.Ring>, after: seq<R.Ring>)
    requires v in rec.collections && rec.collections[v] == R.Collection([m], rings)
    requires startNew ==> after == rings + [FreshRing(m)]
    requires !startNew ==>
      && rings != [] && var last := rings[|rings| - 1];
         last.sealedAt.None? && !last.removed && after == rings[|rings| - 1 := last.(members := last.members + [m])]
    ensures R.CanOnboard(rec, v)
    ensures R.Onboard(rec, v, startNew) == rec.(collections := rec.collections[v := R.Collection([], after)])
  {
    assert [m][1..] == [];
  }

  lemma KeyJoins(cfg: Config, capacity: nat, s: State, v: int, m: R.Member, startNew: bool, after: seq<R.Ring>)
    requires Amount(cfg.denom, cfg.denom.minExp) > 0 && m !in s.rec.loaded && R.CollectionOf(s.rec, v).queue == []
    requires v in cfg.price && s.held + cfg.price[v] <= cfg.maxBalance
    requires startNew <==> NoRoom(R.CollectionOf(s.rec, v).rings, capacity)
    requires var rings := R.CollectionOf(s.rec, v).rings;
      if startNew then after == rings + [FreshRing(m)]
      else var last := rings[|rings| - 1];
           last.sealedAt.None? && !last.removed && after == rings[|rings| - 1 := last.(members := last.members + [m])]
    ensures Reaches(cfg, capacity, s, JoinSteps(v, m, startNew), Joined(cfg, s, v, m, after))
  {
    var t, u := Queued(cfg, s, v, m), Joined(cfg, s, v, m, after);
    LoadTransaction(cfg, s, v, m);
    OneStep(cfg, capacity, s, Tx(Willing(), NoExtension(7), LoadExternal(v, m)), t);
    QueuedAlone(cfg, s, v, m, after);
    HeadJoins(t.rec, v, m, startNew, R.CollectionOf(s.rec, v).rings, after);
    OnboardStep(cfg, capacity, t, v, startNew, u);
    ReachesThen(cfg, capacity, s, [Tx(Willing(), NoExtension(7), LoadExternal(v, m))], t, [Onboard(v, startNew)], u);
  }

  lemma QueuedAlone(cfg: Config, s: State, v: int, m: R.Member, after: seq<R.Ring>)
    requires R.CollectionOf(s.rec, v).queue == []
    ensures var t := Queued(cfg, s, v, m);
      && v in t.rec.collections && t.rec.collections[v] == R.Collection([m], R.CollectionOf(s.rec, v).rings)
      && Joined(cfg, s, v, m, after) == t.(rec := t.rec.(collections := t.rec.collections[v := R.Collection([], after)]))
  {
    assert [] + [m] == [m];
  }

  lemma OnboardStep(cfg: Config, capacity: nat, t: State, v: int, startNew: bool, u: State)
    requires Amount(cfg.denom, cfg.denom.minExp) > 0 && R.CanOnboard(t.rec, v)
    requires startNew <==> NoRoom(t.rec.collections[v].rings, capacity)
    requires u.rec.collections == R.Onboard(t.rec, v, startNew).collections && u == t.(rec := t.rec.(collections := u.rec.collections))
    ensures Reaches(cfg, capacity, t, [Onboard(v, startNew)], u)
  {
    assert t.(rec := R.Onboard(t.rec, v, startNew)) == u;
    OneStep(cfg, capacity, t, Onboard(v, startNew), u);
  }

  // ---------------------------------------------------------------------------------------------
  // Filling a ring
  // ---------------------------------------------------------------------------------------------

  function Upto(n: nat): seq<R.Member> {
    seq(n, i => i)
  }

  function LoadedUpto(v: int, n: nat): (r: map<R.Member, int>)
    ensures forall m: R.Member :: m in r <==> m < n
  {
    if n == 0 then map[] else LoadedUpto(v, n - 1)[n - 1 := v]
  }

  function FillRun(v: int, n: nat): seq<Step> {
    if n == 0 then [] else FillRun(v, n - 1) + JoinSteps(v, n - 1, n == 1)
  }

  /** Keys 0 to `n - 1` are in ring 0, which is still open. */
  function Filled(cfg: Config, v: int, n: nat): State {
    State(0, map[], map[], 0, n * RI.Price(cfg.price, v),
          R.Storage(if n == 0 then map[] else map[v := R.Collection([], [R.Ring(Upto(n), None, {}, false)])],
                    LoadedUpto(v, n), map[], {}, map[]),
          Flow(n * RI.Price(cfg.price, v), map[], 0))
  }

  lemma ScaleStep(n: nat, p: nat, limit: nat)
    requires (n + 1) * p <= limit
    ensures n * p + p == (n + 1) * p && n * p <= limit
  {
  }

  lemma FilledStep(cfg: Config, v: int, n: nat, after: seq<R.Ring>)
    requires n > 0 && after == [R.Ring(Upto(n), None, {}, false)]
    requires (n - 1) * RI.Price(cfg.price, v) + RI.Price(cfg.price, v) == n * RI.Price(cfg.price, v)
    ensures Joined(cfg, Filled(cfg, v, n - 1), v, n - 1, after) == Filled(cfg, v, n)
  {
    assert Filled(cfg, v, n - 1).rec.collections[v := R.Collection([], after)] == map[v := R.Collection([], after)];
  }

  lemma {:induction false} Fills(cfg: Config, capacity: nat, v: int, n: nat)
    requires Amount(cfg.denom, cfg.denom.minExp) > 0 && v in cfg.price && 0 < capacity && n <= capacity
    requires n * cfg.price[v] <= cfg.maxBalance
    ensures Reaches(cfg, capacity, Genesis(0), FillRun(v, n), Filled(cfg, v, n))
  {
    if n == 0 {
      assert LoadedUpto(v, 0) == map[];
    } else {
      var s, after := Filled(cfg, v, n - 1), [R.Ring(Upto(n), None, {}, false)];
      ScaleStep(n - 1, cfg.price[v], cfg.maxBalance);
      Fills(cfg, capacity, v, n - 1);
      LastRing(cfg, capacity, v, n, after);
      KeyJoins(cfg, capacity, s, v, n - 1, n == 1, after);
      FilledStep(cfg, v, n, after);
      ReachesThen(cfg, capacity, Genesis(0), FillRun(v, n - 1), s, JoinSteps(v, n - 1, n == 1), Filled(cfg, v, n));
    }
  }

  lemma LastRing(cfg: Config, capacity: nat, v: int, n: nat, after: seq<R.Ring>)
    requires 0 < n <= capacity && after == [R.Ring(Upto(n), None, {}, false)]
    ensures var rings := R.CollectionOf(Filled(cfg, v, n - 1).rec, v).rings;
      && R.CollectionOf(Filled(cfg, v, n - 1).rec, v).queue == []
      && (n == 1 <==> NoRoom(rings, capacity))
      && (n == 1 ==> after == rings + [FreshRing(n - 1)])
      && (n > 1 ==> var last := rings[|rings| - 1];
                    last.sealedAt.None? && !last.removed && after == rings[|rings| - 1 := last.(members := last.members + [n - 1])])
  {
    assert Upto(n) == Upto(n - 1) + [n - 1];
    if n == 1 {
      assert Upto(1) == [0];
      assert [] + [FreshRing(0)] == [FreshRing(0)];
    }
  }

  // ---------------------------------------------------------------------------------------------
  // Sealing, one unload, clean-up
  // ---------------------------------------------------------------------------------------------

  function FullRing(n: nat, revision: nat): R.Ring {
    R.Ring(Upto(n), Some(0), {revision}, false)
  }

  function Sealed(cfg: Config, v: int, n: nat, revision: nat): State {
    var s := Filled(cfg, v, n);
    s.(rec := s.rec.(collections := map[v := R.Collection([], [FullRing(n, revision)])]))
  }

  function Followed(cfg: Config, v: int, n: nat, revision: nat): State {
    Joined(cfg, Sealed(cfg, v, n, revision), v, n, [FullRing(n, revision), FreshRing(n)])
  }

  function Spent(v: int): Marks {
    map[R.RingKey(v, 0) := {R.Alias(0)}]
  }

  function FirstInput(v: int, revision: nat): Input {
    Input(v, 0, revision, [R.Alias(0)])
  }

  function Unloaded(cfg: Config, v: int, n: nat, revision: nat): State {
    var s := Followed(cfg, v, n, revision);
    s.(held := SatSub(s.held, RI.Price(cfg.price, v)), rec := s.rec.(marks := Spent(v)), flow := Credit(s.flow, 7, RI.Price(cfg.price, v)))
  }

  function Expired(cfg: Config, v: int, n: nat, revision: nat): State {
    Unloaded(cfg, v, n, revision).(now := cfg.expiry)
  }

  /** Ring 0 is filled and sealed, and one more key gets ring 1. */
  function RingsRun(v: int, n: nat, revision: nat): seq<Step> {
    FillRun(v, n) + [Rebuild(v, 0, {revision}, Some(0))] + JoinSteps(v, n, true)
  }

  /** Key 0 is unloaded, and the expired ring is cleaned. */
  function EndRun(cfg: Config, v: int, revision: nat): seq<Step> {
    [Tx(Willing(), NoExtension(7), UnloadSigned([FirstInput(v, revision)], [R.Proof(0, true)], 7))]
    + [Tick(cfg.expiry)]
    + [Tx(Willing(), LocalAuthorized, CleanRecycler(v))]
  }

  function DustyRun(cfg: Config, v: int, n: nat, revision: nat): seq<Step> {
    RingsRun(v, n, revision) + EndRun(cfg, v, revision)
  }

  /** A ring of `capacity` keys and one key more, and their worth within the balance; a ring expires, and on a 32-bit clock. */
  predicate Fits(cfg: Config, v: int, capacity: nat) {
    v in cfg.price && 0 < capacity && (capacity + 1) * cfg.price[v] <= cfg.maxBalance && 0 < cfg.expiry <= U32_MAX
  }

  lemma Seals(cfg: Config, v: int, n: nat, revision: nat)
    requires Amount(cfg.denom, cfg.denom.minExp) > 0 && n > 0
    ensures Reaches(cfg, n, Filled(cfg, v, n), [Rebuild(v, 0, {revision}, Some(0))], Sealed(cfg, v, n, revision))
  {
    var s := Filled(cfg, v, n);
    var open := R.Ring(Upto(n), None, {}, false);
    assert [open][0 := FullRing(n, revision)] == [FullRing(n, revision)];
    assert R.Rebuild(s.rec, v, 0, {revision}, Some(0)).collections == Sealed(cfg, v, n, revision).rec.collections;
    OneStep(cfg, n, s, Rebuild(v, 0, {revision}, Some(0)), Sealed(cfg, v, n, revision));
  }

  lemma Follows(cfg: Config, v: int, n: nat, revision: nat)
    requires Amount(cfg.denom, cfg.denom.minExp) > 0 && Fits(cfg, v, n)
    ensures Reaches(cfg, n, Sealed(cfg, v, n, revision), JoinSteps(v, n, true), Followed(cfg, v, n, revision))
  {
    var s := Sealed(cfg, v, n, revision);
    ScaleStep(n, cfg.price[v], cfg.maxBalance);
    assert s.rec.collections[v].rings == [FullRing(n, revision)];
    assert [FullRing(n, revision)] + [FreshRing(n)] == [FullRing(n, revision), FreshRing(n)];
    KeyJoins(cfg, n, s, v, n, true, [FullRing(n, revision), FreshRing(n)]);
  }

  lemma FirstUnload(cfg: Config, s: State, v: int, n: nat, revision: nat)
    requires Fits(cfg, v, n) && s == Followed(cfg, v, n, revision)
    ensures InputSpendable(cfg, s, FirstInput(v, revision))
    ensures Unload(cfg, s, FirstInput(v, revision), [R.Proof(0, true)]) == Some(s.(rec := s.rec.(marks := Spent(v))))
  {
    var aliases, proofs, k := [R.Alias(0)], [R.Proof(0, true)], R.RingKey(v, 0);
    var ring := s.rec.collections[v].rings[0];
    assert ring == FullRing(n, revision);
    assert ring.members[0] == 0;
    assert R.Spendable(s.rec, 0, cfg.expiry, v, 0, revision);
    assert R.ProofHolds(ring, proofs[0]);
    assert R.MarksOf(s.rec.marks, k) == {};
    assert R.CanUnload(s.rec, 0, cfg.expiry, v, 0, revision, aliases, proofs);
    OneMark(s.rec, k, aliases);
  }

  lemma OneMark(rec: R.Storage, k: R.RingKey, aliases: seq<R.Alias>)
    requires rec.marks == map[] && |aliases| == 1
    ensures R.MarkAll(rec, k, Elements(aliases)) == rec.(marks := map[k := {aliases[0]}])
  {
    assert Elements(aliases) == {aliases[0]};
    assert R.MarksOf(rec.marks, k) + {aliases[0]} == {aliases[0]};
  }

  lemma Unloads(cfg: Config, v: int, n: nat, revision: nat)
    requires ConfigOk(cfg) && Amount(cfg.denom, cfg.denom.minExp) > 0 && Fits(cfg, v, n)
    ensures Reaches(cfg, n, Followed(cfg, v, n, revision),
                    [Tx(Willing(), NoExtension(7), UnloadSigned([FirstInput(v, revision)], [R.Proof(0, true)], 7))], Unloaded(cfg, v, n, revision))
  {
    var s, t := Followed(cfg, v, n, revision), Unloaded(cfg, v, n, revision);
    FirstUnload(cfg, s, v, n, revision);
    ScaleStep(n, cfg.price[v], cfg.maxBalance);
    PriceIsUnits(cfg, v);
    OneInput(cfg, Willing(), s, t, 7, FirstInput(v, revision), [R.Proof(0, true)]);
    OneStep(cfg, n, s, Tx(Willing(), NoExtension(7), UnloadSigned([FirstInput(v, revision)], [R.Proof(0, true)], 7)), t);
  }

  /** A non-anonymous unload of one input with one alias. */
  lemma OneInput(cfg: Config, env: Env, s: State, t: State, who: Account, input: Input, proofs: seq<R.Proof>)
    requires Amount(cfg.denom, cfg.denom.minExp) > 0 && env.payOk && env.feeOk && InputSpendable(cfg, s, input)
    requires input.value in cfg.price && |input.aliases| == |proofs| == 1 && 0 < cfg.price[input.value] <= Min(cfg.maxBalance, s.held)
    requires Unload(cfg, s, input, proofs) == Some(s.(rec := t.rec))
    requires t == s.(held := s.held - cfg.price[input.value], rec := t.rec, flow := Credit(s.flow, who, cfg.price[input.value]))
    ensures Next(cfg, s, Tx(env, NoExtension(who), UnloadSigned([input], proofs, who))) == t
  {
    OneInputTotal(cfg, input);
    OneInputProcessed(cfg, s, input, proofs);
    assert DispatchSigned(cfg, env, s, [input], proofs, who) == Some(t);
  }

  lemma OneInputTotal(cfg: Config, input: Input)
    requires input.value in cfg.price && |input.aliases| == 1 && cfg.price[input.value] <= cfg.maxBalance
    ensures SignedTotal(cfg, [input]) == Some(cfg.price[input.value])
  {
    assert [input][..0] == [];
    assert SignedTotal(cfg, []) == Some(0);
    assert cfg.price[input.value] * 1 == cfg.price[input.value];
  }

  lemma OneInputProcessed(cfg: Config, s: State, input: Input, proofs: seq<R.Proof>)
    requires |input.aliases| == |proofs|
    ensures ProcessInputs(cfg, s, [input], proofs) == Unload(cfg, s, input, proofs)
  {
    assert [input][..0] == [] && proofs[..0] == [] && proofs[0..] == proofs;
    assert ProcessInputs(cfg, s, [], []) == Some(s);
  }

  lemma Expires(cfg: Config, v: int, n: nat, revision: nat)
    requires Amount(cfg.denom, cfg.denom.minExp) > 0
    ensures Reaches(cfg, n, Unloaded(cfg, v, n, revision), [Tick(cfg.expiry)], Expired(cfg, v, n, revision))
  {
    OneStep(cfg, n, Unloaded(cfg, v, n, revision), Tick(cfg.expiry), Expired(cfg, v, n, revision));
  }

  lemma RingExpired(cfg: Config, rec: R.Storage, v: int, n: nat, revision: nat)
    requires Fits(cfg, v, n) && rec == Expired(cfg, v, n, revision).rec
    ensures R.CanClean(rec, cfg.expiry, cfg.expiry, v) && R.RemainingCoins(rec, v) == n - 1
  {
    assert rec.collections[v].rings[0] == FullRing(n, revision);
    assert AsU32(cfg.expiry) == cfg.expiry && AsU32(0) == 0;
    assert R.Expired32(cfg.expiry, 0, cfg.expiry);
    assert |{R.Alias(0)}| == 1;
  }

  /** Ring 0 is gone, its mark waits for dusting, and what it still owed is destroyed. */
  function Ended(cfg: Config, v: int, n: nat, revision: nat): State {
    var s := Expired(cfg, v, n, revision);
    s.(destroyed := RI.Price(cfg.price, v) * SatSub(n, 1),
       rec := R.Storage(map[v := R.Collection([], [FullRing(n, revision).(removed := true), FreshRing(n)])],
                        R.Forget(s.rec.loaded, Upto(n)), Spent(v), {R.RingKey(v, 0)}, map[v := 0]))
  }

  lemma EndedStorage(cfg: Config, rec: R.Storage, v: int, n: nat, revision: nat)
    requires rec == Expired(cfg, v, n, revision).rec
    ensures v in rec.collections && R.NextToClean(rec.lastRemoved, v) == 0 < |rec.collections[v].rings|
    ensures R.Clean(rec, v) == Ended(cfg, v, n, revision).rec
  {
    var full, last := FullRing(n, revision), FreshRing(n);
    assert rec.collections[v].rings == [full, last];
    assert [full, last][0 := full.(removed := true)] == [full.(removed := true), last];
    assert R.Alias(0) in R.MarksOf(rec.marks, R.RingKey(v, 0));
    assert R.Clean(rec, v).collections == Ended(cfg, v, n, revision).rec.collections;
  }

  lemma CleanTransaction(cfg: Config, s: State, v: int, count: nat, t: State)
    requires Amount(cfg.denom, cfg.denom.minExp) > 0 && R.CanClean(s.rec, s.now, cfg.expiry, v) && v in cfg.price
    requires R.RemainingCoins(s.rec, v) == count && s.destroyed == 0 && cfg.price[v] * count <= cfg.maxBalance
    requires t == s.(rec := t.rec, destroyed := t.destroyed) && t.rec == R.Clean(s.rec, v) && t.destroyed == cfg.price[v] * count
    ensures Next(cfg, s, Tx(Willing(), LocalAuthorized, CleanRecycler(v))) == t
  {
  }

  lemma Cleans(cfg: Config, v: int, n: nat, revision: nat)
    requires Amount(cfg.denom, cfg.denom.minExp) > 0 && Fits(cfg, v, n)
    ensures Reaches(cfg, n, Expired(cfg, v, n, revision), [Tx(Willing(), LocalAuthorized, CleanRecycler(v))], Ended(cfg, v, n, revision))
  {
    var s, t := Expired(cfg, v, n, revision), Ended(cfg, v, n, revision);
    EndedStorage(cfg, s.rec, v, n, revision);
    RingExpired(cfg, s.rec, v, n, revision);
    LessThanAll(cfg.price[v], n, cfg.maxBalance);
    CleanTransaction(cfg, s, v, n - 1, t);
    OneStep(cfg, n, s, Tx(Willing(), LocalAuthorized, CleanRecycler(v)), t);
  }

  lemma LessThanAll(p: nat, n: nat, limit: nat)
    requires n > 0 && (n + 1) * p <= limit
    ensures p * (n - 1) <= limit
  {
  }

  lemma RingsOutcome(cfg: Config, v: int, n: nat, revision: nat)
    requires Amount(cfg.denom, cfg.denom.minExp) > 0 && Fits(cfg, v, n)
    ensures Reaches(cfg, n, Genesis(0), RingsRun(v, n, revision), Followed(cfg, v, n, revision))
  {
    var fill, build := FillRun(v, n), [Rebuild(v, 0, {revision}, Some(0))];
    ScaleStep(n, cfg.price[v], cfg.maxBalance);
    Fills(cfg, n, v, n);
    Seals(cfg, v, n, revision);
    ReachesThen(cfg, n, Genesis(0), fill, Filled(cfg, v, n), build, Sealed(cfg, v, n, revision));
    Follows(cfg, v, n, revision);
    ReachesThen(cfg, n, Genesis(0), fill + build, Sealed(cfg, v, n, revision), JoinSteps(v, n, true), Followed(cfg, v, n, revision));
  }

  lemma EndOutcome(cfg: Config, v: int, n: nat, revision: nat)
    requires ConfigOk(cfg) && Amount(cfg.denom, cfg.denom.minExp) > 0 && Fits(cfg, v, n)
    ensures Reaches(cfg, n, Followed(cfg, v, n, revision), EndRun(cfg, v, revision), Ended(cfg, v, n, revision))
  {
    var s := Followed(cfg, v, n, revision);
    var unload := [Tx(Willing(), NoExtension(7), UnloadSigned([FirstInput(v, revision)], [R.Proof(0, true)], 7))];
    var wait, clean := [Tick(cfg.expiry)], [Tx(Willing(), LocalAuthorized, CleanRecycler(v))];
    Unloads(cfg, v, n, revision);
    Expires(cfg, v, n, revision);
    ReachesThen(cfg, n, s, unload, Unloaded(cfg, v, n, revision), wait, Expired(cfg, v, n, revision));
    Cleans(cfg, v, n, revision);
    ReachesThen(cfg, n, s, unload + wait, Expired(cfg, v, n, revision), clean, Ended(cfg, v, n, revision));
  }

  lemma DustyOutcome(cfg: Config, v: int, n: nat, revision: nat)
    requires ConfigOk(cfg) && Amount(cfg.denom, cfg.denom.minExp) > 0 && Fits(cfg, v, n)
    ensures Reaches(cfg, n, Genesis(0), DustyRun(cfg, v, n, revision), Ended(cfg, v, n, revision))
  {
    RingsOutcome(cfg, v, n, revision);
    EndOutcome(cfg, v, n, revision);
    ReachesThen(cfg, n, Genesis(0), RingsRun(v, n, revision), Followed(cfg, v, n, revision), EndRun(cfg, v, revision), Ended(cfg, v, n, revision));
  }

  // ---------------------------------------------------------------------------------------------
  // The equation fails
  // ---------------------------------------------------------------------------------------------

  /** The member service could take its steps, the storage ends solvent, and yet the helper's equation is false. */
  ghost predicate HelperFailsAfter(cfg: Config, capacity: nat, steps: seq<Step>)
    requires Amount(cfg.denom, cfg.denom.minExp) > 0
  {
    exists t :: Reaches(cfg, capacity, Genesis(0), steps, t) && Solvent(cfg, t) && !HelperHolds(cfg, t)
  }

  lemma DisagreementFails(cfg: Config, capacity: nat, steps: seq<Step>, t: State, v: int)
    requires ConfigOk(cfg) && Amount(cfg.denom, cfg.denom.minExp) > 0 && Reaches(cfg, capacity, Genesis(0), steps, t)
    requires v in t.rec.collections && !Agrees(t.rec, v)
    ensures HelperFailsAfter(cfg, capacity, steps)
  {
    ReachesRun(cfg, capacity, Genesis(0), steps, t);
    ReachableIsSolvent(cfg, 0, steps);
    HelperHoldsIff(cfg, 0, steps);
  }

  lemma StillDusty(rec: R.Storage, v: int, gone: R.Ring, live: R.Ring)
    requires v in rec.collections && rec.collections[v].rings == [gone, live] && rec.marks == Spent(v)
    requires gone.removed && !live.removed && live.members != []
    ensures !Agrees(rec, v)
  {
    var rings := rec.collections[v].rings;
    assert R.Alias(0) in R.MarksOf(rec.marks, R.RingKey(v, 0));
    assert RI.RingsNet(rec.marks, v, rings[..0]) == 0;
    assert rings[..1] == [gone] && [gone][..0] == [];
    assert RI.RingsNet(rec.marks, v, rings[..1]) == 0;
    assert R.MarksOf(rec.marks, R.RingKey(v, 1)) == {};
    assert RI.RingsNet(rec.marks, v, rings) == |live.members|;
  }

  /**
    For every accepted configuration, value and ring capacity: the dust of a full, sealed and cleaned
    ring hides the live coin of the key that follows it.
  */
  lemma DustHidesLiveCoin(cfg: Config, v: int, capacity: nat, revision: nat)
    requires ConfigOk(cfg) && Fits(cfg, v, capacity)
    ensures Amount(cfg.denom, cfg.denom.minExp) > 0
    ensures HelperFailsAfter(cfg, capacity, DustyRun(cfg, v, capacity, revision))
  {
    MinimumPositive(cfg.denom);
    DustyOutcome(cfg, v, capacity, revision);
    var t := Ended(cfg, v, capacity, revision);
    StillDusty(t.rec, v, FullRing(capacity, revision).(removed := true), FreshRing(capacity));
    DisagreementFails(cfg, capacity, DustyRun(cfg, v, capacity, revision), t, v);
  }

  /** The instance of the smallest ring the service offers, with one denomination of a 64-bit asset. */
  lemma DustHidesLiveCoinAt255()
    ensures ConfigOk(PlainConfig()) && Amount(PlainConfig().denom, PlainConfig().denom.minExp) > 0
    ensures HelperFailsAfter(PlainConfig(), 255, DustyRun(PlainConfig(), 0, 255, 0))
  {
    PlainConfigOk(PlainConfig());
    DustHidesLiveCoin(PlainConfig(), 0, 255, 0);
  }

  function PlainConfig(): Config {
    Config(Denom(1, 64, 0, 0), map[0 := 1], U64_MAX, 2, 1, 1, 0, 86400, 60)
  }

  lemma PlainConfigOk(cfg: Config)
    requires cfg == PlainConfig()
    ensures ConfigOk(cfg)
  {
    UnitAmount(cfg.denom);
    assert forall v :: InRange(cfg.denom, v) <==> v == 0;
    assert Pow2(64) == 0x1_0000_0000_0000_0000 by {
      Pow2Numerals();
    }
  }

  lemma UnitAmount(d: Denom)
    requires d.unit == 1 && d.bits == 64 && d.minExp == 0 && d.maxExp == 0
    ensures AssetAmount(d, 0) == Ok(1)
  {
    assert Pow2(0) == 1 && Pow2(64) == 0x1_0000_0000_0000_0000 by {
      Pow2Numerals();
    }
    assert CheckedShl(1, 0, 64) == Some(1) && CheckedShr(1, 0, 64) == Some(1);
  }
}
