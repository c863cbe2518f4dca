/** The draw as the event sees it: batches build the one-shot winner set, and how many winners that is. */
module AirdropDraw {
  import opened Prelude
  import opened Ordered
  import opened CyclicDraw
  import opened Airdrop
  import opened AirdropInvariant

  lemma CapShare(cap: nat, total: nat)
    requires cap <= PERMILL_ONE
    ensures 0 <= cap * total / PERMILL_ONE <= total
  {
    assert cap * total <= PERMILL_ONE * total;
  }

  /** The number of winners is between one and both the maximum and the participants. */
  lemma EffectiveBounds(cfg: Config, info: Info, total: nat)
    requires InfoOk(cfg, info) && total > 0
    ensures EffectiveOk(info, EffectiveWinners(info, total), total)
  {
    CapShare(info.winnerCap, total);
  }

  /** Recording two batches one after the other is recording their concatenation. */
  lemma {:induction false} AddWinnersAppend(w: map<Entry, Slot>, regs: map<Slot, Entry>, a: seq<Slot>, b: seq<Slot>)
    ensures AddWinners(AddWinners(w, regs, a), regs, b) == AddWinners(w, regs, a + b)
    decreases |b|
  {
    if b == [] {
      assert a + b == a;
    } else {
      var n := |b| - 1;
      AddWinnersAppend(w, regs, a, b[..n]);
      assert (a + b)[..|a| + n] == a + b[..n];
    }
  }

  ghost function Registrants(regs: map<Slot, Entry>, slots: set<Slot>): set<Entry>
    requires slots <= regs.Keys
  {
    set x | x in slots :: regs[x]
  }

  /** The slots are registered and no registrant has two of them. */
  ghost predicate Different(regs: map<Slot, Entry>, slots: seq<Slot>) {
    && (forall x :: x in slots ==> x in regs)
    && forall i, j :: 0 <= i < j < |slots| ==> regs[slots[i]] != regs[slots[j]]
  }

  /** The winners are the registrants of the slots, whoever registered how often. */
  lemma {:induction false} AddWinnersKeys(regs: map<Slot, Entry>, slots: seq<Slot>)
    requires forall x :: x in slots ==> x in regs
    ensures AddWinners(map[], regs, slots).Keys == Registrants(regs, Elements(slots))
    decreases |slots|
  {
    if slots != [] {
      var n := |slots| - 1;
      AddWinnersKeys(regs, slots[..n]);
      assert Elements(slots) == Elements(slots[..n]) + {slots[n]};
      assert Registrants(regs, Elements(slots)) == Registrants(regs, Elements(slots[..n])) + {regs[slots[n]]};
    }
  }

  /** Never more winners than slots, and as many exactly when no registrant has two of them. */
  lemma {:induction false} AddWinnersCount(regs: map<Slot, Entry>, slots: seq<Slot>)
    requires forall x :: x in slots ==> x in regs
    ensures |AddWinners(map[], regs, slots)| <= |slots|
    ensures |AddWinners(map[], regs, slots)| == |slots| <==> Different(regs, slots)
    decreases |slots|
  {
    if slots != [] {
      var n := |slots| - 1;
      var init, last := slots[..n], slots[n];
      var w := AddWinners(map[], regs, init);
      assert forall i :: 0 <= i < n ==> init[i] == slots[i];
      AddWinnersCount(regs, init);
      WinnersOfPrefix(regs, slots, n);
      assert w[regs[last] := last].Keys == w.Keys + {regs[last]};
    }
  }

  /** The last registrant is new exactly when it differs from all before it. */
  lemma WinnersOfPrefix(regs: map<Slot, Entry>, slots: seq<Slot>, n: nat)
    requires n < |slots| && forall x :: x in slots ==> x in regs
    ensures regs[slots[n]] in AddWinners(map[], regs, slots[..n]) <==> exists i :: 0 <= i < n && regs[slots[i]] == regs[slots[n]]
  {
    var init := slots[..n];
    AddWinnersKeys(regs, init);
    if regs[slots[n]] in AddWinners(map[], regs, init) {
      var x :| x in init && regs[x] == regs[slots[n]];
      var i :| 0 <= i < n && init[i] == x;
      assert regs[slots[i]] == regs[slots[n]];
    }
    if i :| 0 <= i < n && regs[slots[i]] == regs[slots[n]] {
      assert init[i] in Elements(init);
    }
  }

  lemma PrefixListed(regs: map<Slot, Entry>, order: seq<Slot>, n: nat)
    requires Lists(order, regs) && n <= |order|
    ensures forall x :: x in order[..n] ==> x in regs
  {
  }

  /** A draw of `n` slots records at most `n` winners, and `n` exactly when their registrants differ. */
  lemma FirstWinnersCount(regs: map<Slot, Entry>, order: seq<Slot>, n: nat)
    requires Lists(order, regs) && n <= |order|
    ensures |FirstWinners(regs, order, n)| <= n
    ensures |FirstWinners(regs, order, n)| == n <==> Different(regs, order[..n])
  {
    PrefixListed(regs, order, n);
    AddWinnersCount(regs, order[..n]);
  }

  /** `x` is the last of the slots that belongs to `e`. */
  ghost predicate LastSlotOf(regs: map<Slot, Entry>, slots: seq<Slot>, e: Entry, x: Slot)
    requires forall y :: y in slots ==> y in regs
  {
    exists i :: 0 <= i < |slots| && slots[i] == x && regs[x] == e && forall j :: i < j < |slots| ==> regs[slots[j]] != e
  }

  /** A registrant is recorded with the last of its slots, and nobody else is. */
  lemma {:induction false} AddWinnersContents(regs: map<Slot, Entry>, slots: seq<Slot>, e: Entry, x: Slot)
    requires forall y :: y in slots ==> y in regs
    ensures var w := AddWinners(map[], regs, slots); (e in w && w[e] == x) <==> LastSlotOf(regs, slots, e, x)
    decreases |slots|
  {
    if slots != [] {
      var n := |slots| - 1;
      AddWinnersContents(regs, slots[..n], e, x);
      LastSlotStep(regs, slots, n, e, x);
    }
  }

  lemma LastSlotStep(regs: map<Slot, Entry>, slots: seq<Slot>, n: nat, e: Entry, x: Slot)
    requires |slots| == n + 1 && forall y :: y in slots ==> y in regs
    ensures LastSlotOf(regs, slots, e, x) <==> if regs[slots[n]] == e then x == slots[n] else LastSlotOf(regs, slots[..n], e, x)
  {
    var init := slots[..n];
    assert forall i :: 0 <= i < n ==> init[i] == slots[i];
    if regs[slots[n]] != e && LastSlotOf(regs, init, e, x) {
      var i :| 0 <= i < n && init[i] == x && regs[x] == e && forall j :: i < j < n ==> regs[init[j]] != e;
      assert forall j :: i < j < n ==> regs[slots[j]] == regs[init[j]];
      assert slots[i] == x;
    }
    if LastSlotOf(regs, slots, e, x) {
      var i :| 0 <= i <= n && slots[i] == x && regs[x] == e && forall j :: i < j <= n ==> regs[slots[j]] != e;
      if i < n {
        assert init[i] == x && forall j :: i < j < n ==> regs[init[j]] == regs[slots[j]];
      }
    }
  }

  /** The winners of a draw of `n` are the registrants of the first `n` slots of the order, each with the last slot drawn for it. */
  lemma FirstWinnersAre(regs: map<Slot, Entry>, order: seq<Slot>, n: nat, e: Entry, x: Slot)
    requires Lists(order, regs) && n <= |order|
    ensures forall y :: y in order[..n] ==> y in regs
    ensures e in FirstWinners(regs, order, n) <==> exists y :: y in order[..n] && regs[y] == e
    ensures e in FirstWinners(regs, order, n) && FirstWinners(regs, order, n)[e] == x <==> LastSlotOf(regs, order[..n], e, x)
  {
    PrefixListed(regs, order, n);
    AddWinnersContents(regs, order[..n], e, x);
    AddWinnersKeys(regs, order[..n]);
    if y :| y in order[..n] && regs[y] == e {
      assert y in Elements(order[..n]);
    }
  }

  lemma DrawStarts(info: Info, regs: map<Slot, Entry>, order: seq<Slot>, target: Slot, total: nat, effective: nat)
    requires Counted(regs, total) && EffectiveOk(info, effective, total) && |order| == |regs|
    ensures Drawing(info, regs, map[], order, target, total, effective, 0, target)
  {
    assert order[..0] == [];
  }

  /** The iterator is never exhausted, and visits the next keys of the order. */
  lemma NextSlotsContinue(regs: map<Slot, Entry>, target: Slot, order: seq<Slot>, from: Slot, added: nat, k: nat)
    requires order == Order(regs, target) && added + k <= |regs| && from == At(order, target, added)
    ensures NextSlots(regs, from, k) == order[added..added + k]
  {
    SortedKeysListing(regs.Keys);
    BatchContinues(SortedKeys(regs.Keys), target, added, k);
  }

  lemma SliceFacts(order: seq<Slot>, target: Slot, j: nat, k: nat)
    requires j + k <= |order|
    ensures order[..j] + order[j..j + k] == order[..j + k]
    ensures |order[j..j + k]| == k
    ensures Advance(order[j..j + k], At(order, target, j)) == At(order, target, j + k)
  {
  }

  lemma WinnersAdvance(regs: map<Slot, Entry>, order: seq<Slot>, added: nat, k: nat, batch: seq<Slot>)
    requires added + k <= |order| && batch == order[added..added + k]
    ensures AddWinners(FirstWinners(regs, order, added), regs, batch) == FirstWinners(regs, order, added + k)
  {
    AddWinnersAppend(map[], regs, order[..added], batch);
    SliceFacts(order, 0, added, k);
  }

  /** One batch takes the draw `k` winners further. */
  lemma DrawAdvances(info: Info, regs: map<Slot, Entry>, winners: map<Entry, Slot>, order: seq<Slot>, target: Slot,
                     total: nat, effective: nat, added: nat, from: Slot, k: nat, batch: seq<Slot>)
    requires |order| == |regs| && Drawing(info, regs, winners, order, target, total, effective, added, from)
    requires added + k <= effective && batch == order[added..added + k]
    ensures |batch| == k
    ensures Drawing(info, regs, AddWinners(winners, regs, batch), order, target, total, effective, added + k, Advance(batch, from))
  {
    WinnersAdvance(regs, order, added, k, batch);
    SliceFacts(order, target, added, k);
  }

  lemma DrawEnds(info: Info, regs: map<Slot, Entry>, winners: map<Entry, Slot>, order: seq<Slot>, target: Slot,
                 total: nat, effective: nat, from: Slot)
    requires |order| == |regs| && Drawing(info, regs, winners, order, target, total, effective, effective, from)
    ensures Paying(info, regs, winners, order, total, effective, 0)
  {
  }

  lemma ClaimPays(info: Info, regs: map<Slot, Entry>, winners: map<Entry, Slot>, order: seq<Slot>,
                  total: nat, effective: nat, claimed: nat, entry: Entry)
    requires |order| == |regs| && Paying(info, regs, winners, order, total, effective, claimed) && entry in winners
    ensures Paying(info, regs, winners - {entry}, order, total, effective, claimed + 1)
  {
    assert (winners - {entry}).Keys == winners.Keys - {entry};
  }

  lemma RegisterCounts(regs: map<Slot, Entry>, total: nat, slot: Slot, entry: Entry)
    requires Counted(regs, total) && slot !in regs && total < U32_MAX
    ensures Counted(regs[slot := entry], total + 1)
  {
    assert regs[slot := entry].Keys == regs.Keys + {slot};
  }

  lemma ClearCounts<K, V>(m: map<K, V>, limit: nat, batch: set<K>)
    requires Clears(m.Keys, limit, batch)
    ensures |m - batch| == |m| - |batch|
    ensures m - batch == map[] <==> |m| <= limit
  {
    assert (m - batch).Keys == m.Keys - batch;
    SubsetCount(batch, m.Keys);
    if |m| <= limit {
      assert (m - batch).Keys == {};
    }
  }

  // ---------------------------------------------------------------------------------------------
  // One event, status by status
  // ---------------------------------------------------------------------------------------------

  /** There are never more winners to pay than the draw was meant to pick. */
  lemma WinnersBounded(info: Info, status: Status, regs: map<Slot, Entry>, winners: map<Entry, Slot>, entropy: Option<Slot>)
    requires Coherent(info, status, regs, winners, entropy) && (status.DrawWinners? || status.Claiming?)
    ensures 1 <= status.effective <= Min(info.maxWinners, |regs|) && |regs| == status.total
    ensures status.DrawWinners? ==> |winners| <= status.added <= status.effective
    ensures status.Claiming? ==> |winners| + status.claimed <= status.effective
  {
    OrderLists(regs, entropy.value);
    FirstWinnersCount(regs, Order(regs, entropy.value), if status.DrawWinners? then status.added else status.effective);
  }

  lemma StopCoherent(info: Info, status: Status, regs: map<Slot, Entry>, winners: map<Entry, Slot>, entropy: Option<Slot>,
                     total: nat, effective: nat, claimed: nat)
    requires Coherent(info, status, regs, winners, entropy)
    requires status == Claiming(total, effective, claimed)
          || (status.DrawWinners? && status.total == total && status.effective == effective && claimed == 0)
    ensures Coherent(info, ClearingRegistrations(total, effective, claimed, 0), regs, winners, entropy)
  {
    WinnersBounded(info, status, regs, winners, entropy);
  }

  lemma StartDrawCoherent(info: Info, regs: map<Slot, Entry>, winners: map<Entry, Slot>, entropy: Option<Slot>,
                          total: nat, effective: nat, target: Slot)
    requires Coherent(info, Registering(total), regs, winners, entropy) && EffectiveOk(info, effective, total)
    ensures Coherent(info, DrawWinners(total, effective, 0, target), regs, winners, Some(target))
  {
    DrawStarts(info, regs, Order(regs, target), target, total, effective);
  }

  /** One batch of the draw, from the event's own order and cursor. */
  lemma DrawContinues(info: Info, regs: map<Slot, Entry>, winners: map<Entry, Slot>, order: seq<Slot>, target: Slot,
                      total: nat, effective: nat, added: nat, from: Slot, k: nat, batch: seq<Slot>)
    requires order == Order(regs, target) && Drawing(info, regs, winners, order, target, total, effective, added, from)
    requires added + k <= effective && batch == NextSlots(regs, from, k)
    ensures |batch| == k
    ensures Drawing(info, regs, AddWinners(winners, regs, batch), order, target, total, effective, added + k, Advance(batch, from))
  {
    NextSlotsContinue(regs, target, order, from, added, k);
    DrawAdvances(info, regs, winners, order, target, total, effective, added, from, k, batch);
  }

  /** The status a batch leads to. */
  function AfterBatch(status: Status, batch: seq<Slot>): Status
    requires status.DrawWinners?
  {
    DrawWinners(status.total, status.effective, SatAdd(status.added, |batch|, U32_MAX), Advance(batch, status.from))
  }

  /** What a batch of a coherent draw is: the next `k` slots of the order, never fewer. */
  lemma BatchInOrder(info: Info, status: Status, regs: map<Slot, Entry>, winners: map<Entry, Slot>, entropy: Option<Slot>,
                     limit: nat, k: nat, batch: seq<Slot>)
    requires status.DrawWinners? && Coherent(info, status, regs, winners, entropy)
    requires k == Min(SatSub(status.effective, status.added), limit) && batch == NextSlots(regs, status.from, k)
    ensures entropy.Some? && status.added + k <= status.effective <= Min(info.maxWinners, |regs|)
    ensures batch == Order(regs, entropy.value)[status.added..status.added + k]
  {
    NextSlotsContinue(regs, entropy.value, Order(regs, entropy.value), status.from, status.added, k);
  }

  lemma DrawCoherent(info: Info, status: Status, regs: map<Slot, Entry>, winners: map<Entry, Slot>, order: seq<Slot>, target: Slot,
                     k: nat, batch: seq<Slot>)
    requires status.DrawWinners? && order == Order(regs, target)
    requires Drawing(info, regs, winners, order, target, status.total, status.effective, status.added, status.from)
    requires status.added + k <= status.effective && batch == order[status.added..status.added + k]
    ensures |batch| == k
    ensures Coherent(info, DrawWinners(status.total, status.effective, status.added + k, Advance(batch, status.from)),
                     regs, AddWinners(winners, regs, batch), Some(target))
  {
    var next := DrawWinners(status.total, status.effective, status.added + k, Advance(batch, status.from));
    DrawAdvances(info, regs, winners, order, target, status.total, status.effective, status.added, status.from, k, batch);
    DrawingIsCoherent(info, next, regs, AddWinners(winners, regs, batch), order, target);
  }

  lemma DrawingIsCoherent(info: Info, status: Status, regs: map<Slot, Entry>, winners: map<Entry, Slot>, order: seq<Slot>, target: Slot)
    requires status.DrawWinners? && order == Order(regs, target)
    requires Drawing(info, regs, winners, order, target, status.total, status.effective, status.added, status.from)
    ensures Coherent(info, status, regs, winners, Some(target))
  {
  }

  /** The counter of winners does not saturate, so the status the call writes is the one of the longer prefix. */
  lemma BatchCoherent(info: Info, status: Status, regs: map<Slot, Entry>, winners: map<Entry, Slot>, entropy: Option<Slot>,
                      limit: nat, batch: seq<Slot>)
    requires status.DrawWinners? && Coherent(info, status, regs, winners, entropy) && info.maxWinners <= MAX_WINNERS
    requires batch == NextSlots(regs, status.from, Min(SatSub(status.effective, status.added), limit))
    ensures status.added <= status.effective <= MAX_WINNERS && |batch| == Min(status.effective - status.added, limit)
    ensures Coherent(info, AfterBatch(status, batch), regs, AddWinners(winners, regs, batch), entropy)
  {
    var k := Min(SatSub(status.effective, status.added), limit);
    BatchInOrder(info, status, regs, winners, entropy, limit, k, batch);
    DrawCoherent(info, status, regs, winners, Order(regs, entropy.value), entropy.value, k, batch);
    assert entropy == Some(entropy.value);
    assert AfterBatch(status, batch) == DrawWinners(status.total, status.effective, status.added + k, Advance(batch, status.from));
  }

  lemma ClaimCoherent(info: Info, regs: map<Slot, Entry>, winners: map<Entry, Slot>, entropy: Option<Slot>,
                      total: nat, effective: nat, claimed: nat, entry: Entry)
    requires Coherent(info, Claiming(total, effective, claimed), regs, winners, entropy) && entry in winners
    ensures claimed < effective <= info.maxWinners
    ensures Coherent(info, Claiming(total, effective, claimed + 1), regs, winners - {entry}, entropy)
  {
    assert winners.Keys != {};
    WinnersBounded(info, Claiming(total, effective, claimed), regs, winners, entropy);
    ClaimPays(info, regs, winners, Order(regs, entropy.value), total, effective, claimed, entry);
  }

  lemma CleanRegistrationsCoherent(info: Info, regs: map<Slot, Entry>, winners: map<Entry, Slot>, entropy: Option<Slot>,
                                   total: nat, effective: nat, claimed: nat, cleaned: nat, limit: nat, doomed: set<Slot>)
    returns (next: Status)
    requires Coherent(info, ClearingRegistrations(total, effective, claimed, cleaned), regs, winners, entropy)
    requires Clears(regs.Keys, limit, doomed)
    ensures next == AfterRegistrations(ClearingRegistrations(total, effective, claimed, cleaned), regs - doomed, |doomed|)
    ensures Coherent(info, next, regs - doomed, winners, entropy)
  {
    ClearCounts(regs, limit, doomed);
    next := if regs - doomed == map[] then ClearingWinners(total, effective, claimed, 0)
            else ClearingRegistrations(total, effective, claimed, cleaned + |doomed|);
  }

  lemma CleanWinnersCoherent(info: Info, regs: map<Slot, Entry>, winners: map<Entry, Slot>, entropy: Option<Slot>,
                             total: nat, effective: nat, claimed: nat, cleaned: nat, limit: nat, gone: set<Entry>)
    returns (next: Status)
    requires info.maxWinners <= MAX_WINNERS
    requires Coherent(info, ClearingWinners(total, effective, claimed, cleaned), regs, winners, entropy)
    requires Clears(winners.Keys, limit, gone)
    ensures next == AfterWinners(ClearingWinners(total, effective, claimed, cleaned), winners - gone, |gone|)
    ensures Coherent(info, next, regs, winners - gone, entropy)
  {
    ClearCounts(winners, limit, gone);
    next := if winners - gone == map[] then Finalizing(effective, claimed)
            else ClearingWinners(total, effective, claimed, cleaned + |gone|);
  }
}
