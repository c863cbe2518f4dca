/** What holds of the airdrop pallet between any two calls: counters, schedule index and held funds agree. */
module AirdropInvariant {
  import opened Prelude
  import opened Sums
  import opened Ordered
  import opened CyclicDraw
  import opened Airdrop

  // ---------------------------------------------------------------------------------------------
  // One event
  // ---------------------------------------------------------------------------------------------

  ghost predicate InfoOk(cfg: Config, info: Info) {
    && 0 < info.maxWinners <= MAX_WINNERS
    && info.winnerCap <= PERMILL_ONE
    && info.registrationStarts < info.drawTime < info.endTime
    && info.amount * info.maxWinners <= cfg.maxBalance
  }

  /** `order` lists the registered slots, each once. */
  ghost predicate Lists(order: seq<Slot>, regs: map<Slot, Entry>) {
    |order| == |regs| && Distinct(order) && forall x :: x in order <==> x in regs
  }

  /** The registrations in cyclic ascending order after the entropy point. */
  ghost function Order(regs: map<Slot, Entry>, target: Slot): (r: seq<Slot>)
    ensures |r| == |regs|
  {
    CyclicOrder(SortedKeys(regs.Keys), target)
  }

  lemma OrderLists(regs: map<Slot, Entry>, target: Slot)
    ensures Lists(Order(regs, target), regs)
  {
    SortedKeysListing(regs.Keys);
    OrderIsPermutation(SortedKeys(regs.Keys), target);
  }

  /** The winners a one-shot draw of the first `n` slots of `order` would record. */
  ghost function FirstWinners(regs: map<Slot, Entry>, order: seq<Slot>, n: nat): map<Entry, Slot>
    requires n <= |order|
  {
    AddWinners(map[], regs, order[..n])
  }

  /** Between 1 and both the maximum and the number of participants. */
  ghost predicate EffectiveOk(info: Info, effective: nat, total: nat) {
    1 <= effective <= Min(info.maxWinners, total)
  }

  ghost predicate Counted(regs: map<Slot, Entry>, total: nat) {
    |regs| == total <= U32_MAX
  }

  /** The first `added` slots of the order have been recorded and the cursor stands after them. */
  ghost predicate Drawing(info: Info, regs: map<Slot, Entry>, winners: map<Entry, Slot>, order: seq<Slot>, target: Slot,
                          total: nat, effective: nat, added: nat, from: Slot)
    requires |order| == |regs|
  {
    && Counted(regs, total) && EffectiveOk(info, effective, total) && added <= effective
    && from == At(order, target, added)
    && winners == FirstWinners(regs, order, added)
  }

  /** Unclaimed winners are winners of the one-shot draw, and with the claimed ones they are all of it. */
  ghost predicate Paying(info: Info, regs: map<Slot, Entry>, winners: map<Entry, Slot>, order: seq<Slot>,
                         total: nat, effective: nat, claimed: nat)
    requires |order| == |regs|
  {
    && Counted(regs, total) && EffectiveOk(info, effective, total)
    && var all := FirstWinners(regs, order, effective);
       && |winners| + claimed == |all|
       && forall e :: e in winners ==> e in all && winners[e] == all[e]
  }

  ghost predicate Coherent(info: Info, status: Status, regs: map<Slot, Entry>, winners: map<Entry, Slot>, entropy: Option<Slot>) {
    match status
    case Scheduled => regs == map[] && winners == map[] && entropy == None
    case Registering(total) => Counted(regs, total) && winners == map[] && entropy == None
    case DrawWinners(total, effective, added, from) =>
      entropy.Some? && Drawing(info, regs, winners, Order(regs, entropy.value), entropy.value, total, effective, added, from)
    case Claiming(total, effective, claimed) =>
      entropy.Some? && Paying(info, regs, winners, Order(regs, entropy.value), total, effective, claimed)
    case ClearingRegistrations(total, effective, claimed, cleaned) =>
      |regs| + cleaned == total <= U32_MAX && |winners| + claimed <= effective <= info.maxWinners
    case ClearingWinners(total, effective, claimed, cleaned) =>
      regs == map[] && |winners| + claimed + cleaned <= effective <= info.maxWinners
    case Finalizing(effective, claimed) =>
      regs == map[] && winners == map[] && claimed <= effective <= info.maxWinners
  }

  // ---------------------------------------------------------------------------------------------
  // All events
  // ---------------------------------------------------------------------------------------------

  /** A stored event is coherent; an absent one has left nothing behind. */
  ghost predicate Local(cfg: Config, s: State, id: EventId) {
    if id in s.events then
      InfoOk(cfg, s.events[id].info)
      && Coherent(s.events[id].info, s.events[id].status, RegsOf(s, id), WinnersOf(s, id), EntropyOf(s, id))
    else RegsOf(s, id) == map[] && WinnersOf(s, id) == map[] && EntropyOf(s, id) == None
  }

  ghost predicate AllLocal(cfg: Config, s: State) {
    forall id :: Local(cfg, s, id)
  }

  ghost predicate Planned(events: map<EventId, Event>, t: nat, id: EventId) {
    id in events && t == NextAction(events[id].status, events[id].info)
  }

  /** One schedule entry per event, at the time of its next action, and no other. */
  ghost predicate ScheduleExact(events: map<EventId, Event>, schedule: set<(nat, EventId)>) {
    forall t: nat, id: EventId :: (t, id) in schedule <==> Planned(events, t, id)
  }

  /** Prizes of an event that may still have to be paid out of the pot. */
  function Outstanding(e: Event): nat {
    match e.status
    case Scheduled => e.info.maxWinners
    case Registering(_) => e.info.maxWinners
    case DrawWinners(_, effective, _, _) => effective
    case Claiming(_, effective, claimed) => SatSub(effective, claimed)
    case ClearingRegistrations(_, effective, claimed, _) => SatSub(effective, claimed)
    case ClearingWinners(_, effective, claimed, _) => SatSub(effective, claimed)
    case Finalizing(effective, claimed) => SatSub(effective, claimed)
  }

  function Share(e: Event, a: AssetId): nat {
    if e.info.asset == a then e.info.amount * Outstanding(e) else 0
  }

  ghost function Shares(events: map<EventId, Event>, a: AssetId): map<EventId, int> {
    map id | id in events :: Share(events[id], a)
  }

  /** What all events together may still pay in one asset. */
  ghost function Owed(events: map<EventId, Event>, a: AssetId): int {
    Sum(Shares(events, a))
  }

  ghost predicate HeldExact(held: map<AssetId, nat>, events: map<EventId, Event>) {
    forall a :: Balance(held, a) == Owed(events, a)
  }

  ghost predicate Inv(cfg: Config, s: State) {
    AllLocal(cfg, s) && ScheduleExact(s.events, s.schedule) && HeldExact(s.held, s.events)
  }

  // ---------------------------------------------------------------------------------------------
  // Frames
  // ---------------------------------------------------------------------------------------------

  ghost predicate SameEvent(s: State, t: State, j: EventId) {
    && (j in s.events <==> j in t.events) && (j in s.events ==> s.events[j] == t.events[j])
    && RegsOf(s, j) == RegsOf(t, j) && WinnersOf(s, j) == WinnersOf(t, j) && EntropyOf(s, j) == EntropyOf(t, j)
  }

  lemma LocalFrame(cfg: Config, s: State, t: State, id: EventId)
    requires AllLocal(cfg, s) && Local(cfg, t, id)
    requires forall j :: j != id ==> SameEvent(s, t, j)
    ensures AllLocal(cfg, t)
  {
    forall j
      ensures Local(cfg, t, j)
    {
      assert Local(cfg, s, j);
      if j != id {
        assert SameEvent(s, t, j);
      }
    }
  }

  // ---------------------------------------------------------------------------------------------
  // Schedule
  // ---------------------------------------------------------------------------------------------

  lemma ScheduleMoves(events: map<EventId, Event>, schedule: set<(nat, EventId)>, id: EventId, status: Status)
    requires ScheduleExact(events, schedule) && id in events
    ensures var e := events[id];
      ScheduleExact(events[id := Event(e.info, status)],
                    Reschedule(schedule, id, NextAction(e.status, e.info), NextAction(status, e.info)))
  {
    var e := events[id];
    var was, will := NextAction(e.status, e.info), NextAction(status, e.info);
    var after, moved := events[id := Event(e.info, status)], Reschedule(schedule, id, was, will);
    forall t: nat, j: EventId
      ensures (t, j) in moved <==> Planned(after, t, j)
    {
      assert (t, j) in schedule <==> Planned(events, t, j);
      assert (was, id) in schedule <==> Planned(events, was, id);
    }
  }

  lemma ScheduleGains(events: map<EventId, Event>, schedule: set<(nat, EventId)>, id: EventId, e: Event)
    requires ScheduleExact(events, schedule) && id !in events
    ensures ScheduleExact(events[id := e], schedule + {(NextAction(e.status, e.info), id)})
  {
    var after, more := events[id := e], schedule + {(NextAction(e.status, e.info), id)};
    forall t: nat, j: EventId
      ensures (t, j) in more <==> Planned(after, t, j)
    {
      assert (t, j) in schedule <==> Planned(events, t, j);
    }
  }

  lemma ScheduleLoses(events: map<EventId, Event>, schedule: set<(nat, EventId)>, id: EventId)
    requires ScheduleExact(events, schedule) && id in events
    ensures ScheduleExact(events - {id}, schedule - {(NextAction(events[id].status, events[id].info), id)})
  {
    var after, less := events - {id}, schedule - {(NextAction(events[id].status, events[id].info), id)};
    forall t: nat, j: EventId
      ensures (t, j) in less <==> Planned(after, t, j)
    {
      assert (t, j) in schedule <==> Planned(events, t, j);
    }
  }

  // ---------------------------------------------------------------------------------------------
  // Held funds
  // ---------------------------------------------------------------------------------------------

  lemma OwedUpdate(events: map<EventId, Event>, id: EventId, e: Event, a: AssetId)
    requires id in events
    ensures Owed(events[id := e], a) == Owed(events, a) - Share(events[id], a) + Share(e, a)
  {
    assert Shares(events[id := e], a) == Shares(events, a)[id := Share(e, a)];
    SumUpdate(Shares(events, a), id, Share(e, a));
  }

  lemma OwedInsert(events: map<EventId, Event>, id: EventId, e: Event, a: AssetId)
    requires id !in events
    ensures Owed(events[id := e], a) == Owed(events, a) + Share(e, a)
  {
    assert Shares(events[id := e], a) == Shares(events, a)[id := Share(e, a)];
    SumInsert(Shares(events, a), id, Share(e, a));
  }

  lemma OwedRemove(events: map<EventId, Event>, id: EventId, a: AssetId)
    requires id in events
    ensures Owed(events - {id}, a) == Owed(events, a) - Share(events[id], a)
  {
    assert Shares(events - {id}, a) == Shares(events, a) - {id};
    SumTake(Shares(events, a), id);
  }

  lemma ShareWithinOwed(events: map<EventId, Event>, id: EventId, a: AssetId)
    requires id in events
    ensures Share(events[id], a) <= Owed(events, a)
  {
    SumNonNegative(Shares(events, a));
    assert Shares(events, a)[id] == Share(events[id], a);
  }

  lemma TimesMonotone(amount: nat, k: nat, n: nat)
    requires k <= n
    ensures amount * k <= amount * n
    ensures amount * (n - k) == amount * n - amount * k
  {
  }

  /** The held funds are enough for the outstanding prizes, so no release is ever cut short. */
  lemma ReleaseIsFull(cfg: Config, held: map<AssetId, nat>, events: map<EventId, Event>, id: EventId, count: nat)
    requires HeldExact(held, events) && id in events && InfoOk(cfg, events[id].info)
    requires count <= Outstanding(events[id]) <= events[id].info.maxWinners
    ensures var info := events[id].info;
      && SatMul(info.amount, count, cfg.maxBalance) == info.amount * count <= Balance(held, info.asset)
      && forall a :: Balance(Release(cfg, held, info, count), a)
           == Balance(held, a) - (if a == info.asset then info.amount * count else 0)
  {
    var e := events[id];
    ShareWithinOwed(events, id, e.info.asset);
    TimesMonotone(e.info.amount, count, Outstanding(e));
    TimesMonotone(e.info.amount, count, e.info.maxWinners);
  }

  /** Releasing `count` prizes and owing `count` fewer. */
  lemma HeldAfterRelease(cfg: Config, held: map<AssetId, nat>, events: map<EventId, Event>, id: EventId, count: nat, status: Status)
    requires HeldExact(held, events) && id in events && InfoOk(cfg, events[id].info)
    requires count <= Outstanding(events[id]) <= events[id].info.maxWinners
    requires Outstanding(Event(events[id].info, status)) == Outstanding(events[id]) - count
    ensures HeldExact(Release(cfg, held, events[id].info, count), events[id := Event(events[id].info, status)])
  {
    var e, after := events[id], Event(events[id].info, status);
    ReleaseIsFull(cfg, held, events, id, count);
    TimesMonotone(e.info.amount, count, Outstanding(e));
    forall a
      ensures Balance(Release(cfg, held, e.info, count), a) == Owed(events[id := after], a)
    {
      OwedUpdate(events, id, after, a);
    }
  }

  /** Releasing everything outstanding and dropping the event. */
  lemma HeldAfterDrop(cfg: Config, held: map<AssetId, nat>, events: map<EventId, Event>, id: EventId)
    requires HeldExact(held, events) && id in events && InfoOk(cfg, events[id].info)
    requires Outstanding(events[id]) <= events[id].info.maxWinners
    ensures HeldExact(Release(cfg, held, events[id].info, Outstanding(events[id])), events - {id})
  {
    var e := events[id];
    var count := Outstanding(e);
    ReleaseIsFull(cfg, held, events, id, count);
    forall a
      ensures Balance(Release(cfg, held, e.info, count), a) == Owed(events - {id}, a)
    {
      OwedRemove(events, id, a);
    }
  }

  lemma HeldAfterStatus(held: map<AssetId, nat>, events: map<EventId, Event>, id: EventId, status: Status)
    requires HeldExact(held, events) && id in events
    requires Outstanding(Event(events[id].info, status)) == Outstanding(events[id])
    ensures HeldExact(held, events[id := Event(events[id].info, status)])
  {
    var after := Event(events[id].info, status);
    forall a
      ensures Balance(held, a) == Owed(events[id := after], a)
    {
      OwedUpdate(events, id, after, a);
    }
  }

  lemma HeldAfterSchedule(held: map<AssetId, nat>, events: map<EventId, Event>, id: EventId, info: Info)
    requires HeldExact(held, events) && id !in events
    ensures HeldExact(held[info.asset := Balance(held, info.asset) + info.amount * info.maxWinners], events[id := Event(info, Scheduled)])
  {
    var after := held[info.asset := Balance(held, info.asset) + info.amount * info.maxWinners];
    forall a
      ensures Balance(after, a) == Owed(events[id := Event(info, Scheduled)], a)
    {
      OwedInsert(events, id, Event(info, Scheduled), a);
    }
  }
}
