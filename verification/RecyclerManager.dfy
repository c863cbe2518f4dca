/**
  `RecyclerManager` as it runs (`pallets/coinage/src/recycler_manager.rs`): the storage maps updated
  in place, proved against `Recyclers`. A failed operation may leave partial writes; the transaction
  it belongs to rolls them back, so its contract speaks of the storage only when it succeeds.
*/
module RecyclerManager {
  import opened Prelude
  import opened Recyclers
  import RI = RecyclerInvariant
  import RL = RecyclerLaws

  /** The storage invariant survives, and at any prices the recyclers owe `n` coins of `v` more than before. */
  ghost predicate OwesMore(s: Storage, t: Storage, v: int, n: int) {
    RI.Inv(s) ==>
      RI.Inv(t) && forall price: map<int, nat> :: RI.Value(price, t) == RI.Value(price, s) + n * RI.Price(price, v)
  }

  /** `grouped` splits the first vouchers by value, keeping their order. */
  function MembersOf(vouchers: seq<Voucher>, v: int): seq<Member>
    decreases |vouchers|
  {
    if vouchers == [] then []
    else
      var n := |vouchers| - 1;
      MembersOf(vouchers[..n], v) + (if vouchers[n].value == v then [vouchers[n].member] else [])
  }

  function ValuesOf(vouchers: seq<Voucher>): set<int> {
    set x | x in vouchers :: x.value
  }

  ghost predicate Grouped(vouchers: seq<Voucher>, grouped: map<int, seq<Member>>) {
    grouped.Keys == ValuesOf(vouchers) && forall v :: v in grouped ==> grouped[v] == MembersOf(vouchers, v)
  }

  lemma GroupOneMore(vouchers: seq<Voucher>, k: nat, grouped: map<int, seq<Member>>)
    requires k < |vouchers| && Grouped(vouchers[..k], grouped)
    ensures var x := vouchers[k];
      Grouped(vouchers[..k + 1], grouped[x.value := (if x.value in grouped then grouped[x.value] else []) + [x.member]])
  {
    var x := vouchers[k];
    ValuesStep(vouchers, k);
    if x.value !in grouped {
      NoMembers(vouchers[..k], x.value);
    }
    forall v
      ensures MembersOf(vouchers[..k + 1], v) == MembersOf(vouchers[..k], v) + (if x.value == v then [x.member] else [])
    {
      MembersStep(vouchers, k, v);
    }
  }

  lemma ValuesStep(vouchers: seq<Voucher>, k: nat)
    requires k < |vouchers|
    ensures ValuesOf(vouchers[..k + 1]) == ValuesOf(vouchers[..k]) + {vouchers[k].value}
  {
    assert vouchers[..k + 1] == vouchers[..k] + [vouchers[k]];
  }

  lemma MembersStep(vouchers: seq<Voucher>, k: nat, v: int)
    requires k < |vouchers|
    ensures MembersOf(vouchers[..k + 1], v) == MembersOf(vouchers[..k], v) + (if vouchers[k].value == v then [vouchers[k].member] else [])
  {
    assert vouchers[..k + 1][..k] == vouchers[..k];
  }

  lemma {:induction false} NoMembers(vouchers: seq<Voucher>, v: int)
    requires v !in ValuesOf(vouchers)
    ensures MembersOf(vouchers, v) == []
    decreases |vouchers|
  {
    if vouchers != [] {
      var n := |vouchers| - 1;
      assert vouchers[n] in vouchers;
      assert forall x :: x in vouchers[..n] ==> x in vouchers;
      NoMembers(vouchers[..n], v);
    }
  }

  /** `t` is `s` with the groups of the values in `done` appended to their queues. */
  ghost predicate QueuesGrown(s: Storage, t: Storage, grouped: map<int, seq<Member>>, done: set<int>)
    requires done <= grouped.Keys
  {
    && t.collections.Keys == s.collections.Keys + done
    && forall v :: v in t.collections ==>
         t.collections[v] == if v in done then Collection(CollectionOf(s, v).queue + grouped[v], CollectionOf(s, v).rings) else s.collections[v]
  }

  /** What one-by-one loading makes of each collection. */
  lemma {:induction false} EnqueueAllQueues(s: Storage, vouchers: seq<Voucher>, v: int)
    ensures v in EnqueueAll(s, vouchers).collections <==> v in s.collections || v in ValuesOf(vouchers)
    ensures CollectionOf(EnqueueAll(s, vouchers), v)
         == Collection(CollectionOf(s, v).queue + MembersOf(vouchers, v), CollectionOf(s, v).rings)
    decreases |vouchers|
  {
    if vouchers != [] {
      var n := |vouchers| - 1;
      EnqueueAllQueues(s, vouchers[..n], v);
      assert vouchers == vouchers[..n] + [vouchers[n]];
      assert ValuesOf(vouchers) == ValuesOf(vouchers[..n]) + {vouchers[n].value};
    }
  }

  /** The recorded values of one-by-one loading are those of the vouchers. */
  ghost predicate Recorded(s: Storage, loaded: map<Member, int>, vouchers: seq<Voucher>) {
    && (forall m :: m in loaded <==> m in s.loaded || exists i :: 0 <= i < |vouchers| && vouchers[i].member == m)
    && (forall m :: m in loaded && m in s.loaded ==> loaded[m] == s.loaded[m])
    && (forall i :: 0 <= i < |vouchers| ==> vouchers[i].member in loaded && loaded[vouchers[i].member] == vouchers[i].value)
  }

  lemma {:induction false} EnqueueAllRecords(env: LoadEnv, s: Storage, vouchers: seq<Voucher>)
    requires FreshVouchers(env, s, vouchers)
    ensures Recorded(s, EnqueueAll(s, vouchers).loaded, vouchers)
    ensures EnqueueAll(s, vouchers) == s.(collections := EnqueueAll(s, vouchers).collections, loaded := EnqueueAll(s, vouchers).loaded)
    decreases |vouchers|
  {
    if vouchers != [] {
      var n := |vouchers| - 1;
      var front := vouchers[..n];
      assert forall i :: 0 <= i < n ==> front[i] == vouchers[i];
      EnqueueAllRecords(env, s, front);
      RecordOneMore(s, EnqueueAll(s, front).loaded, vouchers, n);
    }
  }

  lemma RecordOneMore(s: Storage, loaded: map<Member, int>, vouchers: seq<Voucher>, k: nat)
    requires k < |vouchers| && Recorded(s, loaded, vouchers[..k]) && vouchers[k].member !in s.loaded
    requires forall i :: 0 <= i < k ==> vouchers[i].member != vouchers[k].member
    ensures Recorded(s, loaded[vouchers[k].member := vouchers[k].value], vouchers[..k + 1])
    ensures k + 1 == |vouchers| ==> vouchers[..k + 1] == vouchers
  {
    var front, more := vouchers[..k], vouchers[..k + 1];
    assert forall i :: 0 <= i < k ==> front[i] == more[i];
    var after := loaded[vouchers[k].member := vouchers[k].value];
    forall m
      ensures m in after <==> m in s.loaded || exists i :: 0 <= i < |more| && more[i].member == m
    {
      if i :| 0 <= i < |more| && more[i].member == m {
        assert i < k ==> front[i].member == m;
      }
      if m in loaded && m !in s.loaded {
        var i :| 0 <= i < |front| && front[i].member == m;
        assert more[i].member == m;
      }
      assert more[k] == vouchers[k];
    }
  }

  lemma RecordedUnique(s: Storage, a: map<Member, int>, b: map<Member, int>, vouchers: seq<Voucher>)
    requires Recorded(s, a, vouchers) && Recorded(s, b, vouchers)
    ensures a == b
  {
    forall m | m in a
      ensures m in b && a[m] == b[m]
    {
      if m !in s.loaded {
        var i :| 0 <= i < |vouchers| && vouchers[i].member == m;
      }
    }
    assert a.Keys == b.Keys;
  }

  class Manager {
    var collections: map<int, Collection>
    var loaded: map<Member, int>
    var marks: map<RingKey, set<Alias>>
    var dusting: set<RingKey>
    var lastRemoved: map<int, nat>

    constructor ()
      ensures View() == Storage(map[], map[], map[], {}, map[])
    {
      collections, loaded, marks, dusting, lastRemoved := map[], map[], map[], {}, map[];
    }

    ghost function View(): Storage
      reads this
    {
      Storage(collections, loaded, marks, dusting, lastRemoved)
    }

    /** Take over another storage value: the rollback of a failed transaction. */
    method Restore(s: Storage)
      modifies this
      ensures View() == s
    {
      collections, loaded, marks, dusting, lastRemoved := s.collections, s.loaded, s.marks, s.dusting, s.lastRemoved;
    }

    method Snapshot() returns (s: Storage)
      ensures s == View()
    {
      s := Storage(collections, loaded, marks, dusting, lastRemoved);
    }

    method EnsureCollectionExists(env: LoadEnv, v: int) returns (ok: bool)
      modifies this`collections
      ensures ok <==> v in old(collections) || env.createOk
      ensures collections == if v in old(collections) || !ok then old(collections) else old(collections)[v := Collection([], [])]
    {
      if v in collections {
        return true;
      }
      if !env.createOk {
        return false;
      }
      collections := collections[v := Collection([], [])];
      ok := true;
    }

    method Load(env: LoadEnv, v: int, m: Member) returns (r: Result<(), Error>)
      modifies this`collections, this`loaded
      ensures r.Ok? <==> LoadSpec(env, old(View()), v, m).Ok?
      ensures r.Ok? ==> View() == LoadSpec(env, old(View()), v, m).value
      ensures r.Err? ==> r.error == LoadSpec(env, old(View()), v, m).error
      ensures r.Ok? ==> OwesMore(old(View()), View(), v, 1)
    {
      if m in loaded {
        return Err(MemberKeyAlreadyUsed);
      }
      if m in env.invalidKeys {
        return Err(InvalidMemberKey);
      }
      var present := EnsureCollectionExists(env, v);
      if !present {
        return Err(CannotCreateRecyclerCollection);
      }
      if !env.addOk {
        return Err(InternalError);
      }
      var c := collections[v];
      collections := collections[v := Collection(c.queue + [m], c.rings)];
      loaded := loaded[m := v];
      LoadOwes(old(View()), v, m);
      r := Ok(());
    }

    /** The second loop: one member-service call per value. The order of the values does not matter. */
    method AddGroups(env: LoadEnv, ghost vouchers: seq<Voucher>, grouped: map<int, seq<Member>>) returns (ok: bool)
      requires Grouped(vouchers, grouped)
      modifies this`collections
      ensures ok <==> (env.createOk || grouped.Keys <= old(collections).Keys) && (env.addOk || grouped == map[])
      ensures ok ==> QueuesGrown(old(View()), View(), grouped, grouped.Keys)
    {
      ghost var s := View();
      var todo := grouped.Keys;
      while todo != {}
        invariant todo <= grouped.Keys && QueuesGrown(s, View(), grouped, grouped.Keys - todo)
        invariant (env.createOk || grouped.Keys - todo <= s.collections.Keys) && (env.addOk || todo == grouped.Keys)
        decreases todo
      {
        var v :| v in todo;
        ok := EnsureCollectionExists(env, v);
        if !ok || !env.addOk {
          return false;
        }
        var c := collections[v];
        collections := collections[v := Collection(c.queue + grouped[v], c.rings)];
        todo := todo - {v};
      }
      ok := true;
    }

    /** The first loop: refuse used, repeated and malformed keys, group the rest by value, record them. */
    method LoadBatchGrouped(env: LoadEnv, vouchers: seq<Voucher>) returns (ok: bool)
      modifies this`collections, this`loaded
      ensures ok <==> LoadGroupedSpec(env, old(View()), vouchers).Some?
      ensures ok ==> View() == LoadGroupedSpec(env, old(View()), vouchers).value
    {
      ghost var s := View();
      var grouped: map<int, seq<Member>> := map[];
      var newLoaded: map<Member, int> := loaded;
      var k := 0;
      while k < |vouchers|
        invariant 0 <= k <= |vouchers|
        invariant View() == s
        invariant FreshVouchers(env, s, vouchers[..k])
        invariant Grouped(vouchers[..k], grouped) && Recorded(s, newLoaded, vouchers[..k])
      {
        var x := vouchers[k];
        if x.member in newLoaded || x.member in env.invalidKeys {
          StaleVoucher(env, s, newLoaded, vouchers, k);
          return false;
        }
        FreshOneMore(env, s, newLoaded, vouchers, k);
        GroupOneMore(vouchers, k, grouped);
        RecordOneMore(s, newLoaded, vouchers, k);
        grouped := grouped[x.value := (if x.value in grouped then grouped[x.value] else []) + [x.member]];
        newLoaded := newLoaded[x.member := x.value];
        k := k + 1;
      }
      assert vouchers[..k] == vouchers;
      ok := AddGroups(env, vouchers, grouped);
      GroupedAnswer(env, s, vouchers, grouped);
      if ok {
        loaded := newLoaded;
        GroupedIsOneByOne(env, s, View(), vouchers, grouped);
      }
    }

    /** `validate_recycler_revision`. */
    method ValidateRevision(now: nat, expiry: nat, v: int, i: nat, revision: nat) returns (ok: bool)
      ensures ok <==> Spendable(View(), now, expiry, v, i, revision)
    {
      if v !in collections || i >= |collections[v].rings| {
        return false;
      }
      var ring := collections[v].rings[i];
      if ring.sealedAt.Some? {
        var expiration := SatAdd(ring.sealedAt.value, expiry, U64_MAX);
        if now >= expiration {
          return false;
        }
      }
      ok := !ring.removed && revision in ring.revisions;
    }

    /** The batch verification: the alias of each proof, or failure if any proof is bad. */
    method VerifyProofs(v: int, i: nat, proofs: seq<Proof>) returns (r: Option<seq<Alias>>)
      requires v in collections && i < |collections[v].rings|
      ensures r.Some? <==> AllProofsHold(collections[v].rings[i], proofs)
      ensures r.Some? ==> |r.value| == |proofs| && forall j :: 0 <= j < |proofs| ==> r.value[j] == Alias(proofs[j].member)
    {
      var ring := collections[v].rings[i];
      var out: seq<Alias> := [];
      var k := 0;
      while k < |proofs|
        invariant 0 <= k <= |proofs| && |out| == k
        invariant forall j :: 0 <= j < k ==> ProofHolds(ring, proofs[j]) && out[j] == Alias(proofs[j].member)
      {
        if !(proofs[k].genuine && proofs[k].member in ring.members) {
          return None;
        }
        out := out + [Alias(proofs[k].member)];
        k := k + 1;
      }
      r := Some(out);
    }

    method MarkAliasUnloaded(k: RingKey, alias: Alias)
      modifies this`marks
      ensures View() == MarkAll(old(View()), k, {alias})
    {
      marks := marks[k := (if k in marks then marks[k] else {}) + {alias}];
    }

    /** `unload`: each alias is matched, checked against the marks so far, and marked. */
    method Unload(now: nat, expiry: nat, v: int, i: nat, revision: nat, aliases: seq<Alias>, proofs: seq<Proof>) returns (ok: bool)
      modifies this`marks
      ensures ok <==> UnloadSpec(old(View()), now, expiry, v, i, revision, aliases, proofs).Some?
      ensures ok ==> View() == UnloadSpec(old(View()), now, expiry, v, i, revision, aliases, proofs).value
      ensures ok ==> OwesMore(old(View()), View(), v, -|aliases|)
    {
      if |aliases| != |proofs| {
        return false;
      }
      ok := ValidateRevision(now, expiry, v, i, revision);
      if !ok {
        return;
      }
      var results := VerifyProofs(v, i, proofs);
      if results.None? {
        return false;
      }
      ghost var before := MarksOf(marks, RingKey(v, i));
      var k := 0;
      while k < |aliases|
        invariant 0 <= k <= |aliases|
        invariant View() == MarkAll(old(View()), RingKey(v, i), Elements(aliases[..k]))
        invariant forall j :: 0 <= j < k ==> Alias(proofs[j].member) == aliases[j]
        invariant AllUnspent(before, aliases[..k])
      {
        var alias := results.value[k];
        if alias != aliases[k] {
          return false;
        }
        if alias in (if RingKey(v, i) in marks then marks[RingKey(v, i)] else {}) {
          SpentAlias(before, aliases, k);
          return false;
        }
        MarkOneMore(old(View()), RingKey(v, i), before, aliases, k);
        MarkAliasUnloaded(RingKey(v, i), alias);
        k := k + 1;
      }
      assert aliases[..k] == aliases;
      UnloadOwes(old(View()), now, expiry, v, i, revision, aliases, proofs);
    }

    /** The members of a removed ring may be loaded again. */
    method ForgetMembers(members: seq<Member>)
      modifies this`loaded
      ensures loaded == Forget(old(loaded), members)
    {
      var k := 0;
      while k < |members|
        invariant 0 <= k <= |members|
        invariant loaded == Forget(old(loaded), members[..k])
      {
        ForgetOneMore(old(loaded), members, k);
        loaded := loaded - {members[k]};
        k := k + 1;
      }
      assert members[..k] == members;
    }

    /** Drop a ring, queue its marks for dusting, and count the coins that were never unloaded. */
    method RemoveRing(v: int, next: nat) returns (remaining: nat)
      requires v in collections && next < |collections[v].rings| && next == NextToClean(lastRemoved, v)
      modifies this
      ensures View() == Clean(old(View()), v) && remaining == RemainingCoins(old(View()), v)
    {
      var c, key := collections[v], RingKey(v, next);
      var members := c.rings[next].members;
      ForgetMembers(members);
      collections := collections[v := c.(rings := c.rings[next := c.rings[next].(removed := true)])];
      var unloaded := if key in marks then marks[key] else {};
      if unloaded != {} {
        dusting := dusting + {key};
      }
      lastRemoved := lastRemoved[v := next];
      remaining := SatSub(|members|, |unloaded|);
    }

    /** `clean_unchecked`: the oldest ring goes. */
    method CleanUnchecked(v: int, removeOk: bool) returns (r: Option<nat>)
      modifies this
      ensures r.Some? <==> v in old(collections) && NextToClean(old(lastRemoved), v) < |old(collections)[v].rings| && removeOk
      ensures r.Some? ==> View() == Clean(old(View()), v) && r.value == RemainingCoins(old(View()), v)
    {
      var next := if v in lastRemoved then lastRemoved[v] + 1 else 0;
      if v !in collections || next >= |collections[v].rings| || !removeOk {
        return None;
      }
      var remaining := RemoveRing(v, next);
      r := Some(remaining);
    }

    /** `clean_dust_unchecked` for one queued ring and the batch the prefix clear removes. */
    method CleanDustUnchecked(k: RingKey, batch: set<Alias>)
      modifies this`marks, this`dusting
      ensures View() == CleanDust(old(View()), k, batch)
      ensures k in old(dusting) ==> OwesMore(old(View()), View(), k.value, 0)
    {
      var left := (if k in marks then marks[k] else {}) - batch;
      if left == {} {
        marks := marks - {k};
        dusting := dusting - {k};
      } else {
        marks := marks[k := left];
      }
      if k in old(dusting) {
        DustOwes(old(View()), k, batch);
      }
    }

    // -------------------------------------------------------------------------------------------
    // Work of the member service
    // -------------------------------------------------------------------------------------------

    /** The head of the queue joins the open ring or starts one; an empty queue is left alone. */
    method OnboardHead(v: int, startNew: bool)
      modifies this`collections
      ensures View() == if CanOnboard(old(View()), v) then Onboard(old(View()), v, startNew) else old(View())
    {
      if v !in collections || collections[v].queue == [] {
        return;
      }
      var c := collections[v];
      var rings, n := c.rings, |c.rings|;
      if startNew || n == 0 || rings[n - 1].sealedAt.Some? || rings[n - 1].removed {
        rings := rings + [Ring([c.queue[0]], None, {}, false)];
      } else {
        rings := rings[n - 1 := rings[n - 1].(members := rings[n - 1].members + [c.queue[0]])];
      }
      collections := collections[v := Collection(c.queue[1..], rings)];
    }

    /** New roots for a ring; the sealing time is written once. */
    method RebuildRing(v: int, i: nat, revisions: set<nat>, sealedAt: Option<nat>)
      modifies this`collections
      ensures View() == if v in old(collections) && i < |old(collections)[v].rings|
                        then Rebuild(old(View()), v, i, revisions, sealedAt) else old(View())
    {
      if v !in collections || i >= |collections[v].rings| {
        return;
      }
      var c := collections[v];
      var ring := c.rings[i].(revisions := revisions);
      if ring.sealedAt.None? {
        ring := ring.(sealedAt := sealedAt);
      }
      collections := collections[v := c.(rings := c.rings[i := ring])];
    }
  }

  // ---------------------------------------------------------------------------------------------
  // What each operation is worth
  // ---------------------------------------------------------------------------------------------

  lemma LoadOwes(s: Storage, v: int, m: Member)
    requires m !in s.loaded
    ensures OwesMore(s, Enqueue(s, v, m), v, 1)
  {
    if RI.Inv(s) {
      RL.EnqueueInv(s, v, m);
      forall price: map<int, nat>
        ensures RI.Value(price, Enqueue(s, v, m)) == RI.Value(price, s) + 1 * RI.Price(price, v)
      {
        RL.EnqueueValue(price, s, v, m);
      }
    }
  }

  lemma UnloadOwes(s: Storage, now: nat, expiry: nat, v: int, i: nat, revision: nat, aliases: seq<Alias>, proofs: seq<Proof>)
    requires UnloadSpec(s, now, expiry, v, i, revision, aliases, proofs).Some?
    ensures OwesMore(s, UnloadSpec(s, now, expiry, v, i, revision, aliases, proofs).value, v, -|aliases|)
  {
    var t := UnloadSpec(s, now, expiry, v, i, revision, aliases, proofs).value;
    if RI.Inv(s) {
      RL.UnloadLaw(map[], s, now, expiry, v, i, revision, aliases, proofs);
      forall price: map<int, nat>
        ensures RI.Value(price, t) == RI.Value(price, s) + -|aliases| * RI.Price(price, v)
      {
        RL.UnloadLaw(price, s, now, expiry, v, i, revision, aliases, proofs);
      }
    }
  }

  lemma DustOwes(s: Storage, k: RingKey, batch: set<Alias>)
    requires k in s.dusting
    ensures OwesMore(s, CleanDust(s, k, batch), k.value, 0)
  {
    if RI.Inv(s) {
      RL.CleanDustInv(s, k, batch);
      forall price: map<int, nat>
        ensures RI.Value(price, CleanDust(s, k, batch)) == RI.Value(price, s)
      {
        RL.CleanDustValue(price, s, k, batch);
      }
    }
  }

  // ---------------------------------------------------------------------------------------------
  // Loop steps
  // ---------------------------------------------------------------------------------------------

  lemma StaleVoucher(env: LoadEnv, s: Storage, loaded: map<Member, int>, vouchers: seq<Voucher>, k: nat)
    requires k < |vouchers| && Recorded(s, loaded, vouchers[..k])
    requires vouchers[k].member in loaded || vouchers[k].member in env.invalidKeys
    ensures !FreshVouchers(env, s, vouchers)
  {
    var m := vouchers[k].member;
    if m in loaded && m !in s.loaded {
      var i :| 0 <= i < |vouchers[..k]| && vouchers[..k][i].member == m;
      assert vouchers[i].member == vouchers[k].member;
    }
  }

  lemma FreshOneMore(env: LoadEnv, s: Storage, loaded: map<Member, int>, vouchers: seq<Voucher>, k: nat)
    requires k < |vouchers| && Recorded(s, loaded, vouchers[..k]) && FreshVouchers(env, s, vouchers[..k])
    requires vouchers[k].member !in loaded && vouchers[k].member !in env.invalidKeys
    ensures FreshVouchers(env, s, vouchers[..k + 1]) && vouchers[k].member !in s.loaded
    ensures forall i :: 0 <= i < k ==> vouchers[i].member != vouchers[k].member
  {
    var front, more := vouchers[..k], vouchers[..k + 1];
    assert forall i :: 0 <= i < k ==> front[i] == more[i] == vouchers[i];
    assert more[k] == vouchers[k];
  }

  lemma GroupedAnswer(env: LoadEnv, s: Storage, vouchers: seq<Voucher>, grouped: map<int, seq<Member>>)
    requires Grouped(vouchers, grouped) && FreshVouchers(env, s, vouchers)
    ensures (env.createOk || grouped.Keys <= s.collections.Keys) && (env.addOk || grouped == map[])
       <==> LoadGroupedSpec(env, s, vouchers).Some?
  {
    forall i | 0 <= i < |vouchers|
      ensures vouchers[i].value in grouped
    {
      assert vouchers[i] in vouchers;
    }
    if vouchers == [] {
      assert grouped.Keys == {};
    } else {
      assert vouchers[0].value in grouped;
    }
  }

  /** Grouping by value and loading one by one leave the same storage. */
  lemma GroupedIsOneByOne(env: LoadEnv, s: Storage, t: Storage, vouchers: seq<Voucher>, grouped: map<int, seq<Member>>)
    requires FreshVouchers(env, s, vouchers) && Grouped(vouchers, grouped)
    requires QueuesGrown(s, t, grouped, grouped.Keys) && Recorded(s, t.loaded, vouchers)
    requires t == s.(collections := t.collections, loaded := t.loaded)
    ensures t == EnqueueAll(s, vouchers)
  {
    var all := EnqueueAll(s, vouchers);
    EnqueueAllRecords(env, s, vouchers);
    RecordedUnique(s, t.loaded, all.loaded, vouchers);
    GroupedQueues(s, t, vouchers, grouped);
  }

  lemma GroupedQueues(s: Storage, t: Storage, vouchers: seq<Voucher>, grouped: map<int, seq<Member>>)
    requires Grouped(vouchers, grouped) && QueuesGrown(s, t, grouped, grouped.Keys)
    ensures t.collections == EnqueueAll(s, vouchers).collections
  {
    var all := EnqueueAll(s, vouchers);
    forall v
      ensures v in t.collections <==> v in all.collections
      ensures v in t.collections ==> t.collections[v] == all.collections[v]
    {
      EnqueueAllQueues(s, vouchers, v);
      if v !in grouped {
        NoMembers(vouchers, v);
        assert CollectionOf(s, v).queue + [] == CollectionOf(s, v).queue;
      }
    }
    assert t.collections.Keys == all.collections.Keys;
  }

  lemma SpentAlias(before: set<Alias>, aliases: seq<Alias>, k: nat)
    requires k < |aliases| && aliases[k] in before + Elements(aliases[..k])
    ensures !AllUnspent(before, aliases)
  {
    if aliases[k] !in before {
      var i :| 0 <= i < k && aliases[..k][i] == aliases[k];
      assert aliases[i] == aliases[k];
    }
  }

  lemma MarkOneMore(s: Storage, key: RingKey, before: set<Alias>, aliases: seq<Alias>, k: nat)
    requires k < |aliases| && before == MarksOf(s.marks, key) && AllUnspent(before, aliases[..k])
    requires aliases[k] !in before + Elements(aliases[..k])
    ensures AllUnspent(before, aliases[..k + 1])
    ensures MarkAll(MarkAll(s, key, Elements(aliases[..k])), key, {aliases[k]}) == MarkAll(s, key, Elements(aliases[..k + 1]))
  {
    assert aliases[..k + 1] == aliases[..k] + [aliases[k]];
    assert Elements(aliases[..k + 1]) == Elements(aliases[..k]) + {aliases[k]};
    assert forall i :: 0 <= i < k ==> aliases[..k][i] in Elements(aliases[..k]);
    MarkTwice(s, key, Elements(aliases[..k]), {aliases[k]});
  }

  lemma MarkTwice(s: Storage, key: RingKey, a: set<Alias>, b: set<Alias>)
    ensures MarkAll(MarkAll(s, key, a), key, b) == MarkAll(s, key, a + b)
  {
    var marked := MarksOf(s.marks, key);
    assert (marked + a) + b == marked + (a + b);
    assert s.marks[key := marked + a][key := marked + (a + b)] == s.marks[key := marked + (a + b)];
    if a == {} {
      assert a + b == b;
    } else if b == {} {
      assert a + b == a;
    }
  }

  lemma ForgetOneMore(loaded: map<Member, int>, members: seq<Member>, k: nat)
    requires k < |members|
    ensures Forget(loaded, members[..k]) - {members[k]} == Forget(loaded, members[..k + 1])
  {
    assert members[..k + 1] == members[..k] + [members[k]];
  }
}
