/**
  The winner draw of `draw_winners_authorized` (`pallets/airdrop/src/lib.rs`): each batch takes the
  keys after the cursor, followed by all keys again, and moves the cursor to the last one taken.
*/
module CyclicDraw {
  import opened Prelude
  import opened Ordered

  /** Number of leading keys not above `c`; in an ascending listing these are all of them. */
  function Cut(ks: seq<nat>, c: nat): (r: nat)
    ensures r <= |ks|
  {
    if ks == [] || ks[0] > c then 0 else 1 + Cut(ks[1..], c)
  }

  /** The keys in ascending order after `target`, wrapping around; `target` itself would come last. */
  function CyclicOrder(ks: seq<nat>, target: nat): (r: seq<nat>)
    ensures |r| == |ks|
  {
    var cut := Cut(ks, target);
    seq(|ks|, i requires 0 <= i < |ks| => if i < |ks| - cut then ks[cut + i] else ks[i - (|ks| - cut)])
  }

  /** One batch: the prefix iterator from the cursor, chained with the whole prefix, cut at `k`. */
  function Batch(ks: seq<nat>, cursor: nat, k: nat): (r: seq<nat>) {
    var cut := Cut(ks, cursor);
    var length := |ks| - cut + |ks|;
    seq(if k <= length then k else length,
        i requires 0 <= i < length => if i < |ks| - cut then ks[cut + i] else ks[i - (|ks| - cut)])
  }

  /** It is a prefix of the two iterators chained. */
  lemma BatchIsChained(ks: seq<nat>, cursor: nat, k: nat, chain: seq<nat>)
    requires chain == ks[Cut(ks, cursor)..] + ks
    ensures Batch(ks, cursor, k) == if k <= |chain| then chain[..k] else chain
  {
  }

  lemma {:induction false} CutSplits(ks: seq<nat>, c: nat)
    requires Ascending(ks)
    ensures forall i :: 0 <= i < Cut(ks, c) ==> ks[i] <= c
    ensures forall i :: Cut(ks, c) <= i < |ks| ==> ks[i] > c
  {
    if ks != [] && ks[0] <= c {
      var rest := ks[1..];
      CutSplits(rest, c);
      assert forall i :: 0 < i < |ks| ==> ks[i] == rest[i - 1];
    } else if ks != [] {
      assert forall i :: 0 < i < |ks| ==> ks[0] < ks[i];
    }
  }

  lemma CutAtKey(ks: seq<nat>, i: nat)
    requires Ascending(ks) && i < |ks|
    ensures Cut(ks, ks[i]) == i + 1
  {
    CutSplits(ks, ks[i]);
    assert i < Cut(ks, ks[i]);
    if i + 1 < |ks| {
      assert ks[i + 1] > ks[i];
    }
  }

  /** Position `i` of the order, as a position of the ascending listing. */
  lemma OrderAt(ks: seq<nat>, target: nat, i: nat)
    requires i < |ks|
    ensures var cut := Cut(ks, target);
      CyclicOrder(ks, target)[i] == if i < |ks| - cut then ks[cut + i] else ks[i - (|ks| - cut)]
  {
  }

  /** The order lists every key once. */
  lemma OrderIsPermutation(ks: seq<nat>, target: nat)
    requires Ascending(ks)
    ensures Distinct(CyclicOrder(ks, target))
    ensures forall k :: k in CyclicOrder(ks, target) <==> k in ks
  {
    var order, cut := CyclicOrder(ks, target), Cut(ks, target);
    forall i, j | 0 <= i < j < |order|
      ensures order[i] != order[j]
    {
      OrderAt(ks, target, i);
      OrderAt(ks, target, j);
    }
    OrderIsRotation(ks, target);
    assert ks == ks[..cut] + ks[cut..];
  }

  /** The order is the listing, rotated. */
  lemma OrderIsRotation(ks: seq<nat>, target: nat)
    ensures CyclicOrder(ks, target) == ks[Cut(ks, target)..] + ks[..Cut(ks, target)]
  {
  }

  /** Keys above the target come first and ascend; those not above it follow and ascend. */
  lemma OrderIsCyclic(ks: seq<nat>, target: nat, i: nat, j: nat)
    requires Ascending(ks) && i < j < |ks|
    ensures var o := CyclicOrder(ks, target);
      && (o[j] > target ==> o[i] > target)
      && ((o[i] > target <==> o[j] > target) ==> o[i] < o[j])
  {
    CutSplits(ks, target);
  }

  /** The cursor after the first `j` winners of `order`. */
  function At(order: seq<nat>, target: nat, j: nat): nat
    requires j <= |order|
  {
    if j == 0 then target else order[j - 1]
  }

  /** A batch continues the order exactly where the previous one stopped, and is never short. */
  lemma BatchContinues(ks: seq<nat>, target: nat, j: nat, k: nat)
    requires Ascending(ks) && j + k <= |ks|
    ensures Batch(ks, At(CyclicOrder(ks, target), target, j), k) == CyclicOrder(ks, target)[j..j + k]
  {
    var cursor := At(CyclicOrder(ks, target), target, j);
    BatchFrom(ks, target, j, k, cursor, if j == 0 then Cut(ks, target) else CursorCut(ks, target, j), Batch(ks, cursor, k));
  }

  lemma BatchFrom(ks: seq<nat>, target: nat, j: nat, k: nat, cursor: nat, start: nat, batch: seq<nat>)
    requires j + k <= |ks| && start <= |ks|
    requires var cut := Cut(ks, target); start == if j <= |ks| - cut then cut + j else j - (|ks| - cut)
    requires batch == Batch(ks, cursor, k) && start == Cut(ks, cursor)
    ensures batch == CyclicOrder(ks, target)[j..j + k]
  {
    forall i | 0 <= i < k
      ensures batch[i] == CyclicOrder(ks, target)[j + i]
    {
      OrderAt(ks, target, j + i);
    }
    SameSlice(batch, CyclicOrder(ks, target), j);
  }

  lemma SameSlice(batch: seq<nat>, order: seq<nat>, j: nat)
    requires j + |batch| <= |order|
    requires forall i :: 0 <= i < |batch| ==> batch[i] == order[j + i]
    ensures batch == order[j..j + |batch|]
  {
  }

  /** Where the next batch starts in the ascending listing. */
  ghost function CursorCut(ks: seq<nat>, target: nat, j: nat): (r: nat)
    requires Ascending(ks) && 0 < j <= |ks|
    ensures r == Cut(ks, At(CyclicOrder(ks, target), target, j))
    ensures var cut := Cut(ks, target); r == if j <= |ks| - cut then cut + j else j - (|ks| - cut)
  {
    var cut := Cut(ks, target);
    OrderAt(ks, target, j - 1);
    CutAtKey(ks, if j <= |ks| - cut then cut + j - 1 else j - 1 - (|ks| - cut));
    Cut(ks, At(CyclicOrder(ks, target), target, j))
  }

  /** The cursor after a batch: the last key taken, or unchanged if the batch took none. */
  function Advance(batch: seq<nat>, cursor: nat): nat {
    if batch == [] then cursor else batch[|batch| - 1]
  }

  /** All batches of a draw, one after the other, `limit` winners at a time; `read(c, k)` is the batch at cursor `c`. */
  function DrawWith(read: (nat, nat) -> seq<nat>, cursor: nat, remaining: nat, limit: nat): seq<nat>
    requires limit > 0
    decreases remaining
  {
    if remaining == 0 then []
    else
      var k := Min(remaining, limit);
      var batch := read(cursor, k);
      batch + DrawWith(read, Advance(batch, cursor), remaining - k, limit)
  }

  function DrawInBatches(ks: seq<nat>, cursor: nat, remaining: nat, limit: nat): seq<nat>
    requires limit > 0
  {
    DrawWith((c: nat, k: nat) => Batch(ks, c, k), cursor, remaining, limit)
  }

  /** A reader that always continues `order` from where the cursor stands. */
  ghost predicate Continues(read: (nat, nat) -> seq<nat>, order: seq<nat>, target: nat) {
    forall j: nat, k: nat :: j + k <= |order| ==> read(At(order, target, j), k) == order[j..j + k]
  }

  /** Sequences only: a slice put in front of the slice after it. */
  lemma SliceThenRest(order: seq<nat>, j: nat, k: nat, m: nat, cursor: nat)
    requires 0 < k && j + k <= m <= |order|
    ensures Advance(order[j..j + k], cursor) == order[j + k - 1]
    ensures order[j..j + k] + order[j + k..m] == order[j..m]
  {
  }

  /** Whatever the batch limit, the batches together draw the next `remaining` keys of the order. */
  lemma {:induction false} BatchesDrawTheOrder(read: (nat, nat) -> seq<nat>, order: seq<nat>, target: nat, j: nat, remaining: nat, limit: nat)
    requires Continues(read, order, target) && limit > 0 && j + remaining <= |order|
    ensures DrawWith(read, At(order, target, j), remaining, limit) == order[j..j + remaining]
    decreases remaining
  {
    if remaining > 0 {
      var k: nat := Min(remaining, limit);
      BatchesDrawTheOrder(read, order, target, j + k, remaining - k, limit);
      assert read(At(order, target, j), k) == order[j..j + k];
      SliceThenRest(order, j, k, j + remaining, At(order, target, j));
    }
  }

  /** The draw is the same for every batch limit, in particular as one unbounded draw. */
  lemma DrawIsLimitIndependent(ks: seq<nat>, target: nat, winners: nat, limit: nat)
    requires Ascending(ks) && limit > 0 && winners <= |ks|
    ensures DrawInBatches(ks, target, winners, limit) == CyclicOrder(ks, target)[..winners]
    ensures winners > 0 ==> DrawInBatches(ks, target, winners, limit) == DrawInBatches(ks, target, winners, winners)
  {
    var read, order := (c: nat, k: nat) => Batch(ks, c, k), CyclicOrder(ks, target);
    forall j: nat, k: nat | j + k <= |order|
      ensures read(At(order, target, j), k) == order[j..j + k]
    {
      BatchContinues(ks, target, j, k);
    }
    BatchesDrawTheOrder(read, order, target, 0, winners, limit);
    if winners > 0 {
      BatchesDrawTheOrder(read, order, target, 0, winners, winners);
    }
  }
}
