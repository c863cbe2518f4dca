/**
  What every recycler operation keeps, and what each is worth. The value of the recyclers is
  counted as in `check_accounting` (`pallets/coinage/src/mock.rs`): members still waiting or in a
  live ring, minus the aliases already unloaded from that ring.
*/
module RecyclerInvariant {
  import opened Prelude
  import opened Sums
  import opened Recyclers

  // ---------------------------------------------------------------------------------------------
  // Invariant
  // ---------------------------------------------------------------------------------------------

  ghost function LiveMembers(ring: Ring): multiset<Member> {
    if ring.removed then multiset{} else multiset(ring.members)
  }

  /** Members of the rings that have not been removed. */
  ghost function RingsBag(rings: seq<Ring>): multiset<Member>
    decreases |rings|
  {
    if rings == [] then multiset{}
    else RingsBag(rings[..|rings| - 1]) + LiveMembers(rings[|rings| - 1])
  }

  /** Every member the collection currently backs. */
  ghost function Bag(c: Collection): multiset<Member> {
    multiset(c.queue) + RingsBag(c.rings)
  }

  /** How often the collection of value `v` backs member `m`. */
  ghost function Count(s: Storage, v: int, m: Member): nat {
    Bag(CollectionOf(s, v))[m]
  }

  /** A backed member occurs once, and `RecyclersCoinToRecycler` records exactly the backed members. */
  ghost predicate Registered(s: Storage) {
    forall v, m {:trigger Count(s, v, m)} :: Count(s, v, m) == Recorded(s.loaded, v, m)
  }

  ghost function Recorded(loaded: map<Member, int>, v: int, m: Member): nat {
    if m in loaded && loaded[m] == v then 1 else 0
  }

  /** Marks of a live ring are aliases of its members. */
  ghost predicate MarksBacked(s: Storage) {
    forall k :: k in s.marks ==>
      && k.value in s.collections
      && k.index < |s.collections[k.value].rings|
      && (!s.collections[k.value].rings[k.index].removed
          ==> s.marks[k] <= AliasSet(s.collections[k.value].rings[k.index].members))
  }

  /** Rings are removed in index order and never come back. */
  ghost predicate RemovedInOrder(s: Storage) {
    && (forall v, i :: v in s.collections && 0 <= i < |s.collections[v].rings|
          ==> (s.collections[v].rings[i].removed <==> i < NextToClean(s.lastRemoved, v)))
    && (forall v :: v in s.lastRemoved ==> v in s.collections && s.lastRemoved[v] < |s.collections[v].rings|)
  }

  /** Marks are queued for deletion only once their ring is gone. */
  ghost predicate DustIsDead(s: Storage) {
    forall k :: k in s.dusting ==> k.value in s.lastRemoved && k.index < NextToClean(s.lastRemoved, k.value)
  }

  ghost predicate Inv(s: Storage) {
    Registered(s) && MarksBacked(s) && RemovedInOrder(s) && DustIsDead(s)
  }

  lemma EmptyInv(s: Storage)
    requires s.collections.Keys == {} && s.loaded.Keys == {} && s.marks.Keys == {}
    requires s.dusting == {} && s.lastRemoved.Keys == {}
    ensures Inv(s)
  {
    forall v, m
      ensures Count(s, v, m) == 0
    {
      assert Bag(CollectionOf(s, v)) == multiset{};
    }
  }

  // ---------------------------------------------------------------------------------------------
  // Value
  // ---------------------------------------------------------------------------------------------

  ghost function RingNet(marks: map<RingKey, set<Alias>>, k: RingKey, ring: Ring): int {
    if ring.removed then 0 else |ring.members| - |MarksOf(marks, k)|
  }

  ghost function RingsNet(marks: map<RingKey, set<Alias>>, v: int, rings: seq<Ring>): int
    decreases |rings|
  {
    if rings == [] then 0
    else
      var n := |rings| - 1;
      RingsNet(marks, v, rings[..n]) + RingNet(marks, RingKey(v, n), rings[n])
  }

  /** Coins a collection still owes: queued members, and ring members not yet unloaded. */
  ghost function Live(s: Storage, v: int): int {
    if v in s.collections then |s.collections[v].queue| + RingsNet(s.marks, v, s.collections[v].rings) else 0
  }

  function Price(price: map<int, nat>, v: int): nat {
    if v in price then price[v] else 0
  }

  ghost function Ledger(price: map<int, nat>, s: Storage): map<int, int> {
    map v | v in s.collections :: Price(price, v) * Live(s, v)
  }

  /** The asset value the recyclers owe. */
  ghost function Value(price: map<int, nat>, s: Storage): int {
    Sum(Ledger(price, s))
  }

  /** A change confined to one collection moves the total by that collection's change. */
  lemma ValueChange(price: map<int, nat>, s: Storage, t: Storage, v: int)
    requires t.collections.Keys == s.collections.Keys + {v}
    requires forall u :: u in s.collections && u != v ==> Live(t, u) == Live(s, u)
    ensures Value(price, t) == Value(price, s) + Price(price, v) * (Live(t, v) - Live(s, v))
  {
    var a, b := Ledger(price, s), Ledger(price, t);
    SumTake(b, v);
    assert a - {v} == b - {v};
    if v in a {
      SumTake(a, v);
    } else {
      assert a - {v} == a;
    }
    ProductGap(Price(price, v), Live(t, v), Live(s, v));
  }

  lemma ProductGap(p: int, a: int, b: int)
    ensures p * a - p * b == p * (a - b)
  {
  }

  lemma ValueSame(price: map<int, nat>, s: Storage, t: Storage)
    requires t.collections.Keys == s.collections.Keys
    requires forall u :: u in s.collections ==> Live(t, u) == Live(s, u)
    ensures Value(price, t) == Value(price, s)
  {
    assert Ledger(price, t) == Ledger(price, s);
  }

  lemma {:induction false} RingsNetFrame(m1: map<RingKey, set<Alias>>, m2: map<RingKey, set<Alias>>, v: int, rings: seq<Ring>)
    requires forall i :: 0 <= i < |rings| && !rings[i].removed ==> MarksOf(m1, RingKey(v, i)) == MarksOf(m2, RingKey(v, i))
    ensures RingsNet(m1, v, rings) == RingsNet(m2, v, rings)
    decreases |rings|
  {
    if rings != [] {
      var n := |rings| - 1;
      assert forall i :: 0 <= i < n ==> rings[..n][i] == rings[i];
      RingsNetFrame(m1, m2, v, rings[..n]);
      assert !rings[n].removed ==> MarksOf(m1, RingKey(v, n)) == MarksOf(m2, RingKey(v, n));
    }
  }

  /** Replacing one ring, or the marks of one ring, moves the net count by that ring's change. */
  lemma {:induction false} RingsNetChange(m1: map<RingKey, set<Alias>>, r1: seq<Ring>, m2: map<RingKey, set<Alias>>, r2: seq<Ring>, v: int, i: nat)
    requires |r1| == |r2| && i < |r1|
    requires forall j :: 0 <= j < |r1| && j != i ==> r1[j] == r2[j] && MarksOf(m1, RingKey(v, j)) == MarksOf(m2, RingKey(v, j))
    ensures RingsNet(m2, v, r2) - RingsNet(m1, v, r1)
         == RingNet(m2, RingKey(v, i), r2[i]) - RingNet(m1, RingKey(v, i), r1[i])
    decreases |r1|
  {
    var n := |r1| - 1;
    var f1, f2 := r1[..n], r2[..n];
    assert forall j :: 0 <= j < n ==> f1[j] == r1[j] && f2[j] == r2[j];
    if i == n {
      assert f1 == f2;
      RingsNetFrame(m1, m2, v, f1);
    } else {
      RingsNetChange(m1, f1, m2, f2, v, i);
      assert r1[n] == r2[n];
    }
  }

  lemma {:induction false} RingsBagChange(r1: seq<Ring>, r2: seq<Ring>, i: nat)
    requires |r1| == |r2| && i < |r1|
    requires forall j :: 0 <= j < |r1| && j != i ==> r1[j] == r2[j]
    ensures RingsBag(r2) + LiveMembers(r1[i]) == RingsBag(r1) + LiveMembers(r2[i])
    decreases |r1|
  {
    var n := |r1| - 1;
    var f1, f2 := r1[..n], r2[..n];
    SameFront(r1, r2, n, i);
    if i == n {
      SwapLast(RingsBag(f1), LiveMembers(r1[n]), LiveMembers(r2[n]));
    } else {
      RingsBagChange(f1, f2, i);
      AddToBoth(RingsBag(f2), LiveMembers(r1[i]), RingsBag(f1), LiveMembers(r2[i]), LiveMembers(r1[n]));
    }
  }

  lemma SameFront(r1: seq<Ring>, r2: seq<Ring>, n: nat, i: nat)
    requires |r1| == |r2| == n + 1 && forall j :: 0 <= j < |r1| && j != i ==> r1[j] == r2[j]
    ensures i == n ==> r1[..n] == r2[..n]
    ensures i < n ==> r1[n] == r2[n] && r1[..n][i] == r1[i] && r2[..n][i] == r2[i]
    ensures forall j :: 0 <= j < n && j != i ==> r1[..n][j] == r2[..n][j]
  {
  }

  lemma SwapLast(a: multiset<Member>, b: multiset<Member>, c: multiset<Member>)
    ensures (a + c) + b == (a + b) + c
  {
  }

  lemma AddToBoth(a: multiset<Member>, b: multiset<Member>, c: multiset<Member>, d: multiset<Member>, z: multiset<Member>)
    requires a + b == c + d
    ensures (a + z) + b == (c + z) + d
  {
    assert (a + z) + b == (a + b) + z;
    assert (c + z) + d == (c + d) + z;
  }

  lemma {:induction false} RingInBag(rings: seq<Ring>, i: nat)
    requires i < |rings| && !rings[i].removed
    ensures multiset(rings[i].members) <= RingsBag(rings)
    decreases |rings|
  {
    var n := |rings| - 1;
    if i < n {
      RingInBag(rings[..n], i);
      assert rings[..n][i] == rings[i];
    }
  }

  /** Members of a live ring are pairwise different, so their aliases can be counted. */
  lemma RingDistinct(s: Storage, v: int, i: nat)
    requires Registered(s) && v in s.collections && i < |s.collections[v].rings| && !s.collections[v].rings[i].removed
    ensures Distinct(s.collections[v].rings[i].members)
    ensures |AliasSet(s.collections[v].rings[i].members)| == |s.collections[v].rings[i].members|
  {
    var ms := s.collections[v].rings[i].members;
    RingInBag(s.collections[v].rings, i);
    assert forall m :: multiset(ms)[m] <= 1 by {
      forall m
        ensures multiset(ms)[m] <= 1
      {
        assert multiset(ms)[m] <= RingsBag(s.collections[v].rings)[m] <= Count(s, v, m);
      }
    }
    AtMostOnce(ms);
    AliasCount(ms);
  }

  lemma {:induction false} AtMostOnce(ms: seq<Member>)
    requires forall m :: multiset(ms)[m] <= 1
    ensures Distinct(ms)
  {
    if ms != [] {
      var n := |ms| - 1;
      assert ms == ms[..n] + [ms[n]];
      assert forall m :: multiset(ms)[m] == multiset(ms[..n])[m] + multiset{ms[n]}[m];
      AtMostOnce(ms[..n]);
      assert multiset(ms[..n])[ms[n]] == 0;
    }
  }

  lemma {:induction false} AliasCount(ms: seq<Member>)
    requires Distinct(ms)
    ensures |AliasSet(ms)| == |ms|
  {
    if ms != [] {
      var n := |ms| - 1;
      AliasCount(ms[..n]);
      assert AliasSet(ms) == AliasSet(ms[..n]) + {Alias(ms[n])};
      assert Alias(ms[n]) !in AliasSet(ms[..n]);
    }
  }

  /** The marks of a live ring never outnumber its members. */
  lemma MarksWithinRing(s: Storage, v: int, i: nat)
    requires Registered(s) && MarksBacked(s)
    requires v in s.collections && i < |s.collections[v].rings| && !s.collections[v].rings[i].removed
    ensures |MarksOf(s.marks, RingKey(v, i))| <= |s.collections[v].rings[i].members|
  {
    RingDistinct(s, v, i);
    SubsetCount(MarksOf(s.marks, RingKey(v, i)), AliasSet(s.collections[v].rings[i].members));
  }
}
