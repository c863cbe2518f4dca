/**
  The accounting equation of the test helper `check_accounting` (`pallets/coinage/src/mock.rs`)
  against the solvency proved of every run. The helper counts the members of the rings still active,
  and subtracts all marks stored under a value, also those of removed rings that wait for dusting.
*/
module CoinageAccounting {
  import opened Prelude
  import opened Sums
  import opened Denomination
  import opened Coinage
  import opened CoinageBalance
  import opened CoinageRuns
  import R = Recyclers
  import RI = RecyclerInvariant

  type Marks = map<R.RingKey, set<R.Alias>>

  // ---------------------------------------------------------------------------------------------
  // The helper's sums
  // ---------------------------------------------------------------------------------------------

  /** `active_count`: members of the rings that were not removed. */
  ghost function ActiveCount(rings: seq<R.Ring>): nat
    decreases |rings|
  {
    if rings == [] then 0
    else ActiveCount(rings[..|rings| - 1]) + (if rings[|rings| - 1].removed then 0 else |rings[|rings| - 1].members|)
  }

  ghost function MarksUnder(marks: Marks, v: int): map<R.RingKey, int> {
    map k | k in marks && k.value == v :: |marks[k]|
  }

  /** `RecyclersUnloaded::iter_prefix((value,)).count()`. */
  ghost function MarkCount(marks: Marks, v: int): int {
    Sum(MarksUnder(marks, v))
  }

  /** Net members of one value as the helper counts them, saturating at zero. */
  ghost function HelperNet(rec: R.Storage, v: int): int {
    Max(0, ActiveCount(R.CollectionOf(rec, v).rings) - MarkCount(rec.marks, v))
  }

  ghost function HelperLedger(price: map<int, nat>, rec: R.Storage): map<int, int> {
    map v | v in rec.collections :: RI.Price(price, v) * HelperNet(rec, v)
  }

  /** The equation `check_accounting` asserts. */
  ghost predicate HelperHolds(cfg: Config, s: State) {
    s.held == Worth(cfg, s.coins) + Sum(HelperLedger(cfg.price, s.rec)) + s.destroyed
  }

  // ---------------------------------------------------------------------------------------------
  // Marks ring by ring
  // ---------------------------------------------------------------------------------------------

  ghost function RingsMarks(marks: Marks, v: int, n: nat): nat {
    if n == 0 then 0 else RingsMarks(marks, v, n - 1) + |R.MarksOf(marks, R.RingKey(v, n - 1))|
  }

  /** Marks of removed rings. */
  ghost function DeadMarks(marks: Marks, v: int, rings: seq<R.Ring>): nat
    decreases |rings|
  {
    if rings == [] then 0
    else
      var n := |rings| - 1;
      DeadMarks(marks, v, rings[..n]) + (if rings[n].removed then |R.MarksOf(marks, R.RingKey(v, n))| else 0)
  }

  ghost predicate IndicesBelow(marks: Marks, v: int, n: nat) {
    forall k :: k in marks && k.value == v ==> k.index < n
  }

  lemma {:induction false} MarkCountIsRings(marks: Marks, v: int, n: nat)
    requires IndicesBelow(marks, v, n)
    ensures MarkCount(marks, v) == RingsMarks(marks, v, n)
    decreases n
  {
    if n == 0 {
      assert MarksUnder(marks, v) == map[];
    } else {
      var k := R.RingKey(v, n - 1);
      var fewer := marks - {k};
      MarkCountIsRings(fewer, v, n - 1);
      RingsMarksFrame(marks, fewer, v, n - 1);
      if k in marks {
        SumTake(MarksUnder(marks, v), k);
        assert MarksUnder(marks, v) - {k} == MarksUnder(fewer, v);
      } else {
        assert fewer == marks;
      }
    }
  }

  lemma {:induction false} RingsMarksFrame(marks: Marks, fewer: Marks, v: int, n: nat)
    requires fewer == marks - {R.RingKey(v, n)} || fewer == marks
    ensures RingsMarks(fewer, v, n) == RingsMarks(marks, v, n)
  {
    RingsMarksBelow(marks, fewer, v, n, n);
  }

  lemma {:induction false} RingsMarksBelow(marks: Marks, fewer: Marks, v: int, i: nat, n: nat)
    requires i <= n && (fewer == marks - {R.RingKey(v, n)} || fewer == marks)
    ensures RingsMarks(fewer, v, i) == RingsMarks(marks, v, i)
  {
    if i > 0 {
      RingsMarksBelow(marks, fewer, v, i - 1, n);
      assert R.RingKey(v, i - 1) != R.RingKey(v, n);
    }
  }

  /** Active members minus all marks is the live net count minus the dead marks. */
  lemma {:induction false} ActiveMinusMarks(marks: Marks, v: int, rings: seq<R.Ring>)
    ensures ActiveCount(rings) - RingsMarks(marks, v, |rings|) == RI.RingsNet(marks, v, rings) - DeadMarks(marks, v, rings)
    decreases |rings|
  {
    if rings != [] {
      ActiveMinusMarks(marks, v, rings[..|rings| - 1]);
    }
  }

  /** No mark of a removed ring is left. */
  ghost predicate Dusted(marks: Marks, v: int, rings: seq<R.Ring>) {
    forall i :: 0 <= i < |rings| && rings[i].removed ==> R.MarksOf(marks, R.RingKey(v, i)) == {}
  }

  lemma {:induction false} NoDeadMarks(marks: Marks, v: int, rings: seq<R.Ring>)
    ensures DeadMarks(marks, v, rings) == 0 <==> Dusted(marks, v, rings)
    decreases |rings|
  {
    if rings != [] {
      var n := |rings| - 1;
      var front := rings[..n];
      assert forall i :: 0 <= i < n ==> front[i] == rings[i];
      NoDeadMarks(marks, v, front);
      assert Dusted(marks, v, rings) <==> Dusted(marks, v, front) && (rings[n].removed ==> R.MarksOf(marks, R.RingKey(v, n)) == {});
    }
  }

  // ---------------------------------------------------------------------------------------------
  // Value by value
  // ---------------------------------------------------------------------------------------------

  /** The helper and the storage agree on one value: nobody waits, and no dust hides a live coin. */
  ghost predicate Agrees(rec: R.Storage, v: int) {
    var c := R.CollectionOf(rec, v);
    c.queue == [] && (Dusted(rec.marks, v, c.rings) || RI.RingsNet(rec.marks, v, c.rings) == 0)
  }

  lemma HelperNetIff(rec: R.Storage, v: int)
    requires RI.Inv(rec) && v in rec.collections
    ensures 0 <= HelperNet(rec, v) <= RI.Live(rec, v)
    ensures HelperNet(rec, v) == RI.Live(rec, v) <==> Agrees(rec, v)
  {
    var rings := rec.collections[v].rings;
    assert IndicesBelow(rec.marks, v, |rings|);
    MarkCountIsRings(rec.marks, v, |rings|);
    ActiveMinusMarks(rec.marks, v, rings);
    NoDeadMarks(rec.marks, v, rings);
    RingsNetNonNegative(rec, v, |rings|);
    assert rings[..|rings|] == rings;
  }

  lemma ScaleOrder(p: nat, a: int, b: int)
    requires p > 0 && a <= b
    ensures p * a <= p * b && (p * a == p * b <==> a == b)
  {
  }

  lemma PricePositive(cfg: Config, rec: R.Storage, v: int)
    requires ConfigOk(cfg) && RecyclersOk(cfg, rec) && v in rec.collections
    ensures RI.Price(cfg.price, v) > 0
  {
    PriceIsUnits(cfg, v);
  }

  lemma LedgersCompare(cfg: Config, rec: R.Storage)
    requires ConfigOk(cfg) && RecyclersOk(cfg, rec)
    ensures Sum(HelperLedger(cfg.price, rec)) <= RI.Value(cfg.price, rec)
    ensures Sum(HelperLedger(cfg.price, rec)) == RI.Value(cfg.price, rec) <==> forall v :: v in rec.collections ==> Agrees(rec, v)
  {
    var a, b := HelperLedger(cfg.price, rec), RI.Ledger(cfg.price, rec);
    forall v | v in rec.collections
      ensures a[v] <= b[v] && (a[v] == b[v] <==> Agrees(rec, v))
    {
      HelperNetIff(rec, v);
      PricePositive(cfg, rec, v);
      ScaleOrder(RI.Price(cfg.price, v), HelperNet(rec, v), RI.Live(rec, v));
    }
    SumMonotone(a, b);
    if forall v :: v in rec.collections ==> Agrees(rec, v) {
      assert a == b;
    } else {
      var v :| v in rec.collections && !Agrees(rec, v);
      assert a[v] != b[v];
    }
  }

  /**
    In every reachable state the helper's sum is at most the held balance, and equal to it exactly when
    for every value nobody waits to be onboarded, and no mark of a removed ring is left or no live
    member is still to be unloaded.
  */
  lemma HelperHoldsIff(cfg: Config, now: nat, steps: seq<Step>)
    requires ConfigOk(cfg)
    ensures Amount(cfg.denom, cfg.denom.minExp) > 0
    ensures var s := Run(cfg, Genesis(now), steps);
      && Worth(cfg, s.coins) + Sum(HelperLedger(cfg.price, s.rec)) + s.destroyed <= s.held
      && (HelperHolds(cfg, s) <==> forall v :: v in s.rec.collections ==> Agrees(s.rec, v))
  {
    ReachableIsSolvent(cfg, now, steps);
    LedgersCompare(cfg, Run(cfg, Genesis(now), steps).rec);
  }
}
