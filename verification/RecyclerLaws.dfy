/** Each recycler operation keeps the invariant and moves the owed value by exactly what it should. */
module RecyclerLaws {
  import opened Prelude
  import opened Recyclers
  import opened RecyclerInvariant

  // ---------------------------------------------------------------------------------------------
  // Loading
  // ---------------------------------------------------------------------------------------------

  lemma EnqueueCount(s: Storage, v: int, m: Member, u: int, x: Member)
    ensures Count(Enqueue(s, v, m), u, x) == Count(s, u, x) + (if u == v && x == m then 1 else 0)
  {
    if u == v {
      assert Bag(CollectionOf(Enqueue(s, v, m), v)) == Bag(CollectionOf(s, v)) + multiset{m};
    }
  }

  lemma EnqueueRecorded(loaded: map<Member, int>, v: int, m: Member, u: int, x: Member)
    requires m !in loaded
    ensures Recorded(loaded[m := v], u, x) == Recorded(loaded, u, x) + (if u == v && x == m then 1 else 0)
  {
  }

  lemma EnqueueRegistered(s: Storage, v: int, m: Member)
    requires Registered(s) && m !in s.loaded
    ensures Registered(Enqueue(s, v, m))
  {
    var t := Enqueue(s, v, m);
    forall u, x
      ensures Count(t, u, x) == Recorded(t.loaded, u, x)
    {
      EnqueueCount(s, v, m, u, x);
      assert Count(s, u, x) == Recorded(s.loaded, u, x);
      EnqueueRecorded(s.loaded, v, m, u, x);
    }
  }

  lemma EnqueueRest(s: Storage, v: int, m: Member)
    requires MarksBacked(s) && RemovedInOrder(s) && DustIsDead(s)
    ensures var t := Enqueue(s, v, m); MarksBacked(t) && RemovedInOrder(t) && DustIsDead(t)
  {
    var t := Enqueue(s, v, m);
    assert forall u :: u in s.collections ==> u in t.collections && t.collections[u].rings == s.collections[u].rings;
  }

  lemma EnqueueInv(s: Storage, v: int, m: Member)
    requires Inv(s) && m !in s.loaded
    ensures Inv(Enqueue(s, v, m))
  {
    EnqueueRegistered(s, v, m);
    EnqueueRest(s, v, m);
  }

  lemma EnqueueValue(price: map<int, nat>, s: Storage, v: int, m: Member)
    ensures Value(price, Enqueue(s, v, m)) == Value(price, s) + Price(price, v)
  {
    var t := Enqueue(s, v, m);
    assert Live(t, v) == Live(s, v) + 1;
    ValueChange(price, s, t, v);
  }

  ghost function VoucherValue(price: map<int, nat>, vouchers: seq<Voucher>): nat
    decreases |vouchers|
  {
    if vouchers == [] then 0
    else VoucherValue(price, vouchers[..|vouchers| - 1]) + Price(price, vouchers[|vouchers| - 1].value)
  }

  /** `EnqueueAll` registers the vouchers' keys and nothing else. */
  lemma {:induction false} EnqueueAllLoaded(s: Storage, vouchers: seq<Voucher>, m: Member)
    requires forall i :: 0 <= i < |vouchers| ==> vouchers[i].member != m
    ensures m in EnqueueAll(s, vouchers).loaded <==> m in s.loaded
    decreases |vouchers|
  {
    if vouchers != [] {
      var n := |vouchers| - 1;
      assert forall i :: 0 <= i < n ==> vouchers[..n][i] == vouchers[i];
      EnqueueAllLoaded(s, vouchers[..n], m);
    }
  }

  lemma {:induction false} EnqueueAllInv(env: LoadEnv, s: Storage, vouchers: seq<Voucher>)
    requires Inv(s) && FreshVouchers(env, s, vouchers)
    ensures Inv(EnqueueAll(s, vouchers))
    decreases |vouchers|
  {
    if vouchers != [] {
      var n := |vouchers| - 1;
      var front, last := vouchers[..n], vouchers[n];
      assert forall i :: 0 <= i < n ==> front[i] == vouchers[i];
      EnqueueAllInv(env, s, front);
      EnqueueAllLoaded(s, front, last.member);
      EnqueueInv(EnqueueAll(s, front), last.value, last.member);
    }
  }

  lemma {:induction false} EnqueueAllValue(price: map<int, nat>, s: Storage, vouchers: seq<Voucher>)
    ensures Value(price, EnqueueAll(s, vouchers)) == Value(price, s) + VoucherValue(price, vouchers)
    decreases |vouchers|
  {
    if vouchers != [] {
      var n := |vouchers| - 1;
      EnqueueAllValue(price, s, vouchers[..n]);
      EnqueueValue(price, EnqueueAll(s, vouchers[..n]), vouchers[n].value, vouchers[n].member);
    }
  }

  // ---------------------------------------------------------------------------------------------
  // Unloading
  // ---------------------------------------------------------------------------------------------

  /** Marking unspent aliases of a live ring takes their value out. */
  lemma MarkValue(price: map<int, nat>, s: Storage, v: int, i: nat, aliases: set<Alias>)
    requires v in s.collections && i < |s.collections[v].rings| && !s.collections[v].rings[i].removed
    requires aliases !! MarksOf(s.marks, RingKey(v, i))
    ensures Value(price, MarkAll(s, RingKey(v, i), aliases)) == Value(price, s) - |aliases| * Price(price, v)
  {
    var k := RingKey(v, i);
    var t := MarkAll(s, k, aliases);
    var rings := s.collections[v].rings;
    RingsNetChange(s.marks, rings, t.marks, rings, v, i);
    assert |MarksOf(t.marks, k)| == |MarksOf(s.marks, k)| + |aliases|;
    assert Live(t, v) == Live(s, v) - |aliases|;
    MarkElsewhere(s, k, aliases);
    ValueChange(price, s, t, v);
    NegateProduct(Price(price, v), |aliases|);
  }

  lemma MarkElsewhere(s: Storage, k: RingKey, aliases: set<Alias>)
    ensures forall u :: u in s.collections && u != k.value ==> Live(MarkAll(s, k, aliases), u) == Live(s, u)
  {
    var t := MarkAll(s, k, aliases);
    forall u | u in s.collections && u != k.value
      ensures Live(t, u) == Live(s, u)
    {
      RingsNetFrame(s.marks, t.marks, u, s.collections[u].rings);
    }
  }

  lemma NegateProduct(p: int, n: int)
    ensures p * (-n) == -(n * p)
  {
  }

  lemma MarkInv(s: Storage, v: int, i: nat, aliases: set<Alias>)
    requires Inv(s) && v in s.collections && i < |s.collections[v].rings|
    requires aliases <= AliasSet(s.collections[v].rings[i].members)
    ensures Inv(MarkAll(s, RingKey(v, i), aliases))
  {
    SameCounts(s, MarkAll(s, RingKey(v, i), aliases));
    MarkBacked(s, v, i, aliases);
  }

  lemma SameCounts(s: Storage, t: Storage)
    requires Registered(s) && t.collections == s.collections && t.loaded == s.loaded
    ensures Registered(t)
  {
    forall u, x
      ensures Count(t, u, x) == Recorded(t.loaded, u, x)
    {
      assert Count(t, u, x) == Count(s, u, x);
    }
  }

  lemma MarkBacked(s: Storage, v: int, i: nat, aliases: set<Alias>)
    requires MarksBacked(s) && RemovedInOrder(s) && DustIsDead(s)
    requires v in s.collections && i < |s.collections[v].rings|
    requires aliases <= AliasSet(s.collections[v].rings[i].members)
    ensures var t := MarkAll(s, RingKey(v, i), aliases); MarksBacked(t) && RemovedInOrder(t) && DustIsDead(t)
  {
    var k := RingKey(v, i);
    assert k in s.marks && !s.collections[v].rings[i].removed ==> s.marks[k] <= AliasSet(s.collections[v].rings[i].members);
  }

  /** What an accepted request unloads: as many members as it names aliases. */
  lemma UnloadedAliases(s: Storage, now: nat, expiry: nat, v: int, i: nat, revision: nat, aliases: seq<Alias>, proofs: seq<Proof>)
    requires CanUnload(s, now, expiry, v, i, revision, aliases, proofs)
    ensures Elements(aliases) <= AliasSet(s.collections[v].rings[i].members)
    ensures Elements(aliases) !! MarksOf(s.marks, RingKey(v, i))
    ensures |Elements(aliases)| == |aliases|
  {
    DistinctElementsCount(aliases);
    forall a | a in Elements(aliases)
      ensures a in AliasSet(s.collections[v].rings[i].members) && a !in MarksOf(s.marks, RingKey(v, i))
    {
      var j :| 0 <= j < |aliases| && aliases[j] == a;
      assert ProofHolds(s.collections[v].rings[i], proofs[j]);
    }
  }

  lemma UnloadLaw(price: map<int, nat>, s: Storage, now: nat, expiry: nat, v: int, i: nat, revision: nat,
                  aliases: seq<Alias>, proofs: seq<Proof>)
    requires Inv(s) && UnloadSpec(s, now, expiry, v, i, revision, aliases, proofs).Some?
    ensures var t := UnloadSpec(s, now, expiry, v, i, revision, aliases, proofs).value;
      Inv(t) && Value(price, t) == Value(price, s) - |aliases| * Price(price, v)
  {
    UnloadedAliases(s, now, expiry, v, i, revision, aliases, proofs);
    MarkInv(s, v, i, Elements(aliases));
    MarkValue(price, s, v, i, Elements(aliases));
  }

  // ---------------------------------------------------------------------------------------------
  // Cleaning an expired ring
  // ---------------------------------------------------------------------------------------------

  ghost predicate Cleanable(s: Storage, v: int) {
    v in s.collections && NextToClean(s.lastRemoved, v) < |s.collections[v].rings|
  }

  lemma CleanCount(s: Storage, v: int, u: int, x: Member)
    requires RemovedInOrder(s) && Cleanable(s, v)
    ensures var i := NextToClean(s.lastRemoved, v);
      Count(s, u, x) == Count(Clean(s, v), u, x) + (if u == v then multiset(s.collections[v].rings[i].members)[x] else 0)
  {
    if u == v {
      var i := NextToClean(s.lastRemoved, v);
      var r1, r2 := s.collections[v].rings, Clean(s, v).collections[v].rings;
      RingsBagChange(r1, r2, i);
      assert !r1[i].removed && r2[i].removed;
      assert (RingsBag(r2) + LiveMembers(r1[i]))[x] == (RingsBag(r1) + LiveMembers(r2[i]))[x];
    }
  }

  lemma CleanRegistered(s: Storage, v: int)
    requires Registered(s) && RemovedInOrder(s) && Cleanable(s, v)
    ensures Registered(Clean(s, v))
  {
    var t := Clean(s, v);
    var gone := s.collections[v].rings[NextToClean(s.lastRemoved, v)].members;
    forall u, x
      ensures Count(t, u, x) == Recorded(t.loaded, u, x)
    {
      CleanCount(s, v, u, x);
      CleanCount(s, v, v, x);
      assert Count(s, u, x) == Recorded(s.loaded, u, x);
      assert Count(s, v, x) == Recorded(s.loaded, v, x);
      assert x in gone <==> multiset(gone)[x] > 0;
      assert x in t.loaded <==> x in s.loaded && x !in gone;
    }
  }

  lemma CleanRest(s: Storage, v: int)
    requires MarksBacked(s) && RemovedInOrder(s) && DustIsDead(s) && Cleanable(s, v)
    ensures var t := Clean(s, v); MarksBacked(t) && RemovedInOrder(t) && DustIsDead(t)
  {
    var t := Clean(s, v);
    var i := NextToClean(s.lastRemoved, v);
    assert NextToClean(t.lastRemoved, v) == i + 1;
    assert forall u :: u in s.collections && u != v ==> t.collections[u] == s.collections[u];
    assert forall j :: 0 <= j < |s.collections[v].rings| && j != i ==> t.collections[v].rings[j] == s.collections[v].rings[j];
    assert MarksBacked(t);
    assert DustIsDead(t);
  }

  lemma CleanInv(s: Storage, v: int)
    requires Inv(s) && Cleanable(s, v)
    ensures Inv(Clean(s, v))
  {
    CleanRegistered(s, v);
    CleanRest(s, v);
  }

  /** The destroyed amount is what the ring still owed; the saturating subtraction never saturates. */
  lemma CleanValue(price: map<int, nat>, s: Storage, v: int)
    requires Inv(s) && Cleanable(s, v)
    ensures Value(price, Clean(s, v)) == Value(price, s) - RemainingCoins(s, v) * Price(price, v)
  {
    CleanNet(s, v);
    ValueDrops(price, s, Clean(s, v), v, RemainingCoins(s, v));
  }

  lemma ValueDrops(price: map<int, nat>, s: Storage, t: Storage, v: int, n: nat)
    requires v in s.collections && t.collections.Keys == s.collections.Keys
    requires forall u :: u in s.collections && u != v ==> Live(t, u) == Live(s, u)
    requires Live(t, v) == Live(s, v) - n
    ensures Value(price, t) == Value(price, s) - n * Price(price, v)
  {
    ValueChange(price, s, t, v);
    NegateProduct(Price(price, v), n);
  }

  lemma CleanNet(s: Storage, v: int)
    requires Inv(s) && Cleanable(s, v)
    ensures Live(Clean(s, v), v) == Live(s, v) - RemainingCoins(s, v)
    ensures forall u :: u in s.collections && u != v ==> Live(Clean(s, v), u) == Live(s, u)
  {
    var t := Clean(s, v);
    var i := NextToClean(s.lastRemoved, v);
    assert !s.collections[v].rings[i].removed;
    MarksWithinRing(s, v, i);
    RingsNetChange(s.marks, s.collections[v].rings, t.marks, t.collections[v].rings, v, i);
  }

  // ---------------------------------------------------------------------------------------------
  // Dusting and the member service
  // ---------------------------------------------------------------------------------------------

  lemma CleanDustInv(s: Storage, k: RingKey, batch: set<Alias>)
    requires Inv(s) && k in s.dusting
    ensures Inv(CleanDust(s, k, batch))
  {
    var t := CleanDust(s, k, batch);
    SameCounts(s, t);
    DustBacked(s, k, batch);
  }

  lemma DustBacked(s: Storage, k: RingKey, batch: set<Alias>)
    requires MarksBacked(s) && RemovedInOrder(s) && DustIsDead(s) && k in s.dusting
    ensures var t := CleanDust(s, k, batch); MarksBacked(t) && RemovedInOrder(t) && DustIsDead(t)
  {
    var t := CleanDust(s, k, batch);
    assert k.value in s.collections && s.collections[k.value].rings[k.index].removed;
    assert MarksBacked(t);
  }

  lemma DustLive(s: Storage, k: RingKey, batch: set<Alias>, u: int)
    requires RemovedInOrder(s) && DustIsDead(s) && k in s.dusting
    ensures Live(CleanDust(s, k, batch), u) == Live(s, u)
  {
    if u in s.collections {
      var rings := s.collections[u].rings;
      assert forall i :: 0 <= i < |rings| && !rings[i].removed ==> RingKey(u, i) != k;
      RingsNetFrame(s.marks, CleanDust(s, k, batch).marks, u, rings);
    }
  }

  lemma CleanDustValue(price: map<int, nat>, s: Storage, k: RingKey, batch: set<Alias>)
    requires RemovedInOrder(s) && DustIsDead(s) && k in s.dusting
    ensures Value(price, CleanDust(s, k, batch)) == Value(price, s)
  {
    forall u | u in s.collections
      ensures Live(CleanDust(s, k, batch), u) == Live(s, u)
    {
      DustLive(s, k, batch, u);
    }
    ValueSame(price, s, CleanDust(s, k, batch));
  }

  lemma OnboardCount(s: Storage, v: int, startNew: bool, u: int, x: Member)
    requires CanOnboard(s, v)
    ensures Count(Onboard(s, v, startNew), u, x) == Count(s, u, x)
  {
    if u == v {
      var c, d := s.collections[v], Onboard(s, v, startNew).collections[v];
      var n, m := |c.rings|, c.queue[0];
      assert c.queue == [m] + c.queue[1..];
      assert multiset(c.queue)[x] == multiset(d.queue)[x] + multiset{m}[x];
      OnboardRings(c.rings, d.rings, m, x);
    }
  }

  lemma OnboardRings(r1: seq<Ring>, r2: seq<Ring>, m: Member, x: Member)
    requires r2 == r1 + [Ring([m], None, {}, false)]
      || (|r1| > 0 && !r1[|r1| - 1].removed
          && r2 == r1[|r1| - 1 := r1[|r1| - 1].(members := r1[|r1| - 1].members + [m])])
    ensures RingsBag(r2)[x] == RingsBag(r1)[x] + multiset{m}[x]
  {
    var n := |r1|;
    if |r2| == n {
      assert r2[..n - 1] == r1[..n - 1];
    } else {
      assert r2[..n] == r1;
    }
  }

  lemma OnboardRegistered(s: Storage, v: int, startNew: bool)
    requires Registered(s) && CanOnboard(s, v)
    ensures Registered(Onboard(s, v, startNew))
  {
    var t := Onboard(s, v, startNew);
    forall u, x
      ensures Count(t, u, x) == Recorded(t.loaded, u, x)
    {
      OnboardCount(s, v, startNew, u, x);
      assert Count(s, u, x) == Recorded(s.loaded, u, x);
    }
  }

  lemma OnboardRest(s: Storage, v: int, startNew: bool)
    requires MarksBacked(s) && RemovedInOrder(s) && DustIsDead(s) && CanOnboard(s, v)
    ensures var t := Onboard(s, v, startNew); MarksBacked(t) && RemovedInOrder(t) && DustIsDead(t)
  {
    var t := Onboard(s, v, startNew);
    var r1, r2 := s.collections[v].rings, t.collections[v].rings;
    assert forall u :: u in s.collections && u != v ==> t.collections[u] == s.collections[u];
    assert |r1| <= |r2|;
    assert forall j :: 0 <= j < |r1| ==> r2[j].removed == r1[j].removed && AliasSet(r1[j].members) <= AliasSet(r2[j].members);
    assert NextToClean(s.lastRemoved, v) <= |r1|;
    assert RemovedInOrder(t);
  }

  lemma OnboardNet(s: Storage, v: int, startNew: bool)
    requires MarksBacked(s) && CanOnboard(s, v)
    ensures Live(Onboard(s, v, startNew), v) == Live(s, v)
  {
    var t := Onboard(s, v, startNew);
    var r1, r2 := s.collections[v].rings, t.collections[v].rings;
    var n := |r1|;
    if |r2| == n {
      RingsNetChange(s.marks, r1, t.marks, r2, v, n - 1);
    } else {
      assert r2[..n] == r1;
      assert RingKey(v, n) !in s.marks;
    }
  }

  lemma OnboardInv(s: Storage, v: int, startNew: bool)
    requires Inv(s) && CanOnboard(s, v)
    ensures Inv(Onboard(s, v, startNew))
  {
    OnboardRegistered(s, v, startNew);
    OnboardRest(s, v, startNew);
  }

  lemma OnboardValue(price: map<int, nat>, s: Storage, v: int, startNew: bool)
    requires MarksBacked(s) && CanOnboard(s, v)
    ensures Value(price, Onboard(s, v, startNew)) == Value(price, s)
  {
    var t := Onboard(s, v, startNew);
    OnboardNet(s, v, startNew);
    assert forall u :: u in s.collections && u != v ==> t.collections[u] == s.collections[u];
    ValueSame(price, s, t);
  }

  lemma RebuildCount(s: Storage, v: int, i: nat, revisions: set<nat>, sealedAt: Option<nat>, u: int, x: Member)
    requires v in s.collections && i < |s.collections[v].rings|
    ensures Count(Rebuild(s, v, i, revisions, sealedAt), u, x) == Count(s, u, x)
  {
    if u == v {
      var t := Rebuild(s, v, i, revisions, sealedAt);
      var r1, r2 := s.collections[v].rings, t.collections[v].rings;
      RingsBagChange(r1, r2, i);
      assert (RingsBag(r2) + LiveMembers(r1[i]))[x] == (RingsBag(r1) + LiveMembers(r2[i]))[x];
    }
  }

  lemma RebuildRegistered(s: Storage, v: int, i: nat, revisions: set<nat>, sealedAt: Option<nat>)
    requires Registered(s) && v in s.collections && i < |s.collections[v].rings|
    ensures Registered(Rebuild(s, v, i, revisions, sealedAt))
  {
    var t := Rebuild(s, v, i, revisions, sealedAt);
    forall u, x
      ensures Count(t, u, x) == Recorded(t.loaded, u, x)
    {
      RebuildCount(s, v, i, revisions, sealedAt, u, x);
      assert Count(s, u, x) == Recorded(s.loaded, u, x);
    }
  }

  lemma RebuildRest(s: Storage, v: int, i: nat, revisions: set<nat>, sealedAt: Option<nat>)
    requires MarksBacked(s) && RemovedInOrder(s) && DustIsDead(s) && v in s.collections && i < |s.collections[v].rings|
    ensures var t := Rebuild(s, v, i, revisions, sealedAt); MarksBacked(t) && RemovedInOrder(t) && DustIsDead(t)
  {
    var t := Rebuild(s, v, i, revisions, sealedAt);
    var r1, r2 := s.collections[v].rings, t.collections[v].rings;
    assert forall j :: 0 <= j < |r1| ==> r2[j].members == r1[j].members && r2[j].removed == r1[j].removed;
    assert forall u :: u in s.collections && u != v ==> t.collections[u] == s.collections[u];
  }

  lemma RebuildInv(s: Storage, v: int, i: nat, revisions: set<nat>, sealedAt: Option<nat>)
    requires Inv(s) && v in s.collections && i < |s.collections[v].rings|
    ensures Inv(Rebuild(s, v, i, revisions, sealedAt))
  {
    RebuildRegistered(s, v, i, revisions, sealedAt);
    RebuildRest(s, v, i, revisions, sealedAt);
  }

  lemma RebuildValue(price: map<int, nat>, s: Storage, v: int, i: nat, revisions: set<nat>, sealedAt: Option<nat>)
    requires v in s.collections && i < |s.collections[v].rings|
    ensures Value(price, Rebuild(s, v, i, revisions, sealedAt)) == Value(price, s)
  {
    var t := Rebuild(s, v, i, revisions, sealedAt);
    RingsNetChange(s.marks, s.collections[v].rings, t.marks, t.collections[v].rings, v, i);
    assert Live(t, v) == Live(s, v);
    assert forall u :: u in s.collections && u != v ==> t.collections[u] == s.collections[u];
    ValueSame(price, s, t);
  }
}
