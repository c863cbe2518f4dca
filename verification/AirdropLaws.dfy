/** What the invariant means for participants, winners and the pot, over every run. */
module AirdropLaws {
  import opened Prelude
  import opened Airdrop
  import opened AirdropInvariant
  import opened AirdropDraw
  import opened AirdropRuns

  lemma Reachable(cfg: Config, steps: seq<(nat, Call)>) returns (s: State)
    ensures s == Run(cfg, Genesis(), steps) && Inv(cfg, s)
  {
    GenesisInv(cfg);
    RunKeeps(cfg, Genesis(), steps);
    s := Run(cfg, Genesis(), steps);
  }

  /** The event's slots in the order of its draw. */
  ghost function DrawOrder(s: State, id: EventId): seq<Slot>
    requires id in s.entropy
  {
    Order(RegsOf(s, id), s.entropy[id])
  }

  /** The winners stored, and whether they are as many as counted: exactly when the slots drawn have different registrants. */
  ghost predicate WinnersCounted(s: State, id: EventId, drawn: nat, winners: nat) {
    && id in s.entropy && drawn <= |RegsOf(s, id)| && winners <= drawn
    && (winners == drawn <==> Different(RegsOf(s, id), DrawOrder(s, id)[..drawn]))
  }

  /** In every reachable state the status counters count the stored entries, and the winner target is within its bounds. */
  lemma CountersAgree(cfg: Config, steps: seq<(nat, Call)>, id: EventId)
    ensures var s := Run(cfg, Genesis(), steps);
      id in s.events ==>
        var e, regs, winners := s.events[id], |RegsOf(s, id)|, |WinnersOf(s, id)|;
        match e.status
        case Scheduled => regs == 0 && winners == 0
        case Registering(total) => regs == total && winners == 0
        case DrawWinners(total, effective, added, _) =>
          regs == total && 1 <= effective <= Min(e.info.maxWinners, total) && added <= effective && WinnersCounted(s, id, added, winners)
        case Claiming(total, effective, claimed) =>
          regs == total && 1 <= effective <= Min(e.info.maxWinners, total) && WinnersCounted(s, id, effective, winners + claimed)
        case ClearingRegistrations(total, effective, claimed, cleaned) => regs + cleaned == total && winners + claimed <= effective
        case ClearingWinners(_, effective, claimed, cleaned) => regs == 0 && winners + claimed + cleaned <= effective
        case Finalizing(effective, claimed) => regs == 0 && winners == 0 && claimed <= effective
  {
    var s := Reachable(cfg, steps);
    if id in s.events {
      EventFacts(cfg, s, id);
      var e := s.events[id];
      if e.status.DrawWinners? || e.status.Claiming? {
        CountDrawn(e.info, e.status, RegsOf(s, id), WinnersOf(s, id), EntropyOf(s, id));
      }
    }
  }

  lemma CountDrawn(info: Info, status: Status, regs: map<Slot, Entry>, winners: map<Entry, Slot>, entropy: Option<Slot>)
    requires Coherent(info, status, regs, winners, entropy) && (status.DrawWinners? || status.Claiming?)
    ensures entropy.Some? && |regs| == status.total && 1 <= status.effective <= Min(info.maxWinners, |regs|)
    ensures status.DrawWinners? ==>
      && |winners| <= status.added <= status.effective
      && (|winners| == status.added <==> Different(regs, Order(regs, entropy.value)[..status.added]))
    ensures status.Claiming? ==>
      && |winners| + status.claimed <= status.effective
      && (|winners| + status.claimed == status.effective <==> Different(regs, Order(regs, entropy.value)[..status.effective]))
  {
    OrderLists(regs, entropy.value);
    FirstWinnersCount(regs, Order(regs, entropy.value), if status.DrawWinners? then status.added else status.effective);
  }

  /** The time index holds one entry per event, at its next action's time, and no other. */
  lemma ScheduleIsExact(cfg: Config, steps: seq<(nat, Call)>, t: nat, id: EventId)
    ensures var s := Run(cfg, Genesis(), steps);
      (t, id) in s.schedule <==> id in s.events && t == NextAction(s.events[id].status, s.events[id].info)
  {
    var s := Reachable(cfg, steps);
    assert (t, id) in s.schedule <==> Planned(s.events, t, id);
  }

  ghost predicate DrawDone(s: State, id: EventId) {
    id in s.events && s.events[id].status.DrawWinners? && s.events[id].status.added == s.events[id].status.effective
  }

  lemma DoneDrawing(info: Info, status: Status, regs: map<Slot, Entry>, winners: map<Entry, Slot>, entropy: Option<Slot>, e: Entry, x: Slot)
    requires Coherent(info, status, regs, winners, entropy) && status.DrawWinners? && status.added == status.effective
    ensures entropy.Some? && status.effective <= |regs|
    ensures Drawn(regs, Order(regs, entropy.value)[..status.effective], winners, e, x)
  {
    OrderLists(regs, entropy.value);
    FirstWinnersAre(regs, Order(regs, entropy.value), status.effective, e, x);
  }

  /** `e` is recorded exactly when one of the slots is its own, and with `x` exactly when `x` is the last of them. */
  ghost predicate Drawn(regs: map<Slot, Entry>, slots: seq<Slot>, winners: map<Entry, Slot>, e: Entry, x: Slot) {
    && (forall y :: y in slots ==> y in regs)
    && (e in winners <==> exists y :: y in slots && regs[y] == e)
    && (e in winners && winners[e] == x <==> LastSlotOf(regs, slots, e, x))
  }

  /** After a finished draw the winners are exactly the registrants of the first `effective` slots after the entropy point. */
  lemma DrawOutcome(cfg: Config, steps: seq<(nat, Call)>, id: EventId, e: Entry, x: Slot)
    ensures var s := Run(cfg, Genesis(), steps);
      DrawDone(s, id) ==>
        && id in s.entropy && s.events[id].status.effective <= |RegsOf(s, id)|
        && Drawn(RegsOf(s, id), DrawOrder(s, id)[..s.events[id].status.effective], WinnersOf(s, id), e, x)
  {
    var s := Reachable(cfg, steps);
    if DrawDone(s, id) {
      EventFacts(cfg, s, id);
      DoneDrawing(s.events[id].info, s.events[id].status, RegsOf(s, id), WinnersOf(s, id), EntropyOf(s, id), e, x);
    }
  }

  /** A claim is refused only for the reasons the caller can see: the pot always has the prize. */
  lemma ClaimSucceedsExactly(cfg: Config, steps: seq<(nat, Call)>, now: nat, id: EventId, entry: Entry, transferOk: bool)
    ensures var s := Run(cfg, Genesis(), steps);
      ClaimSpec(s, now, id, entry, transferOk).Some? <==>
        && id in s.events && s.events[id].status.Claiming? && now < s.events[id].info.endTime
        && s.events[id].info.asset in s.supported && entry in WinnersOf(s, id) && transferOk
  {
    var s := Reachable(cfg, steps);
    if id in s.events && s.events[id].status.Claiming? && entry in WinnersOf(s, id) {
      EventFacts(cfg, s, id);
      var Claiming(total, effective, claimed) := s.events[id].status;
      ClaimCoherent(s.events[id].info, RegsOf(s, id), WinnersOf(s, id), EntropyOf(s, id), total, effective, claimed, entry);
      HeldAfterClaim(cfg, s, id, total, effective, claimed);
    }
  }

  // ---------------------------------------------------------------------------------------------
  // Best-effort releases
  // ---------------------------------------------------------------------------------------------

  /** The calls that release prizes best effort; a claim releases its prize exactly or fails. */
  predicate Releases(call: Call) {
    call.RemoveScheduled? || call.Cancel? || call.CloseRegistration? || call.Finalize?
  }

  /** How many prizes such a call asks the pot for, as a difference that is not cut off at zero. */
  function Requested(s: State, call: Call): int
    requires Releases(call) && call.id in s.events
  {
    var info := s.events[call.id].info;
    match s.events[call.id].status
    case Scheduled => if call.RemoveScheduled? || call.Cancel? then info.maxWinners else 0
    case Registering(total) =>
      if call.Cancel? then info.maxWinners
      else if !call.CloseRegistration? then 0
      else if total == 0 then info.maxWinners
      else if call.randomness.None? then 0
      else info.maxWinners - EffectiveWinners(info, total)
    case Finalizing(effective, claimed) => if call.Finalize? then effective - claimed else 0
    case _ => 0
  }

  /** No request is negative, so no subtraction saturates, and none exceeds what is outstanding. */
  lemma RequestWithinOutstanding(cfg: Config, s: State, call: Call)
    requires Inv(cfg, s) && Releases(call) && call.id in s.events
    ensures 0 <= Requested(s, call) <= Outstanding(s.events[call.id]) <= s.events[call.id].info.maxWinners
  {
    EventFacts(cfg, s, call.id);
  }

  /** The held funds after the call are those its request leaves. */
  ghost predicate Releasing(cfg: Config, s: State, now: nat, call: Call)
    requires Releases(call) && call.id in s.events && Requested(s, call) >= 0
  {
    Outcome(cfg, s, now, call).Some? ==>
      Outcome(cfg, s, now, call).value.held == Release(cfg, s.held, s.events[call.id].info, Requested(s, call))
  }

  lemma RemovalReleases(cfg: Config, s: State, now: nat, call: Call)
    requires (call.RemoveScheduled? || call.Cancel?) && call.id in s.events && Requested(s, call) >= 0
    ensures Releasing(cfg, s, now, call)
  {
  }

  lemma ClosingReleases(cfg: Config, s: State, now: nat, call: Call)
    requires call.CloseRegistration? && call.id in s.events && Requested(s, call) >= 0
    ensures Releasing(cfg, s, now, call)
  {
  }

  lemma FinalizingReleases(cfg: Config, s: State, now: nat, call: Call)
    requires call.Finalize? && call.id in s.events && Requested(s, call) >= 0
    ensures Releasing(cfg, s, now, call)
  {
  }

  lemma RequestIsReleased(cfg: Config, s: State, now: nat, call: Call)
    requires Releases(call) && call.id in s.events && Requested(s, call) >= 0
    ensures Releasing(cfg, s, now, call)
  {
    if call.CloseRegistration? {
      ClosingReleases(cfg, s, now, call);
    } else if call.Finalize? {
      FinalizingReleases(cfg, s, now, call);
    } else {
      RemovalReleases(cfg, s, now, call);
    }
  }

  lemma UnknownReleasesNothing(cfg: Config, s: State, now: nat, call: Call)
    requires Releases(call) && call.id !in s.events
    ensures Outcome(cfg, s, now, call).Some? ==> Outcome(cfg, s, now, call).value.held == s.held
  {
  }

  /** Neither the product nor the pot cuts the release: both warning branches are dead. */
  ghost predicate FullRelease(cfg: Config, held: map<AssetId, nat>, info: Info, count: int) {
    count == 0 || (count > 0 && SatMul(info.amount, count, cfg.maxBalance) == info.amount * count <= Balance(held, info.asset))
  }

  /** What the call takes out of the pot in one asset. */
  function ReleasedOf(s: State, call: Call, a: AssetId): int
    requires Releases(call)
  {
    if call.id in s.events && s.events[call.id].info.asset == a then s.events[call.id].info.amount * Requested(s, call) else 0
  }

  /**
    In every reachable state, whatever a removal, cancellation, closing or finalization asks the pot
    for is outstanding and released in full, in its asset and in no other.
  */
  lemma ReleasesAreFull(cfg: Config, steps: seq<(nat, Call)>, now: nat, call: Call, a: AssetId)
    requires Releases(call)
    ensures var s := Run(cfg, Genesis(), steps);
      call.id in s.events ==>
        && 0 <= Requested(s, call) <= Outstanding(s.events[call.id])
        && FullRelease(cfg, s.held, s.events[call.id].info, Requested(s, call))
    ensures var s := Run(cfg, Genesis(), steps);
      Outcome(cfg, s, now, call).Some? ==>
        Balance(Outcome(cfg, s, now, call).value.held, a) == Balance(s.held, a) - ReleasedOf(s, call, a)
  {
    var s := Reachable(cfg, steps);
    if call.id in s.events {
      EventFacts(cfg, s, call.id);
      RequestWithinOutstanding(cfg, s, call);
      ReleaseIsFull(cfg, s.held, s.events, call.id, Requested(s, call));
      RequestIsReleased(cfg, s, now, call);
    } else {
      UnknownReleasesNothing(cfg, s, now, call);
    }
  }

  // ---------------------------------------------------------------------------------------------
  // One slot per registrant
  // ---------------------------------------------------------------------------------------------

  /** The condition `register_slot` documents: a registrant has one slot per event. */
  ghost predicate OneSlotEach(regs: map<Slot, Entry>) {
    forall a, b :: a in regs && b in regs && regs[a] == regs[b] ==> a == b
  }

  /** What it asks of its callers: the registrant can produce no other slot for this event. */
  ghost predicate OneSlot(s: State, call: Call) {
    call.Register? ==> forall x :: x in RegsOf(s, call.id) && RegsOf(s, call.id)[x] == call.entry ==> x == call.slot
  }

  ghost predicate OneSlotRun(cfg: Config, s: State, steps: seq<(nat, Call)>)
    decreases |steps|
  {
    steps == [] || (OneSlot(s, steps[0].1) && OneSlotRun(cfg, Apply(cfg, s, steps[0]), steps[1..]))
  }

  ghost predicate AllOneSlot(s: State) {
    forall id :: OneSlotEach(RegsOf(s, id))
  }

  lemma DropKeepsRegistrations(cfg: Config, s: State, now: nat, call: Call)
    requires call.RemoveScheduled? || call.Cancel? || call.Finalize?
    ensures Apply(cfg, s, (now, call)).registrations == s.registrations
  {
  }

  lemma CloseKeepsRegistrations(cfg: Config, s: State, now: nat, call: Call)
    requires call.CloseRegistration? || call.CloseDrawing? || call.CloseClaiming?
    ensures Apply(cfg, s, (now, call)).registrations == s.registrations
  {
  }

  lemma MoveKeepsRegistrations(cfg: Config, s: State, now: nat, call: Call)
    requires call.StartRegistration? || call.DrawBatch? || call.CleanWinners?
    ensures Apply(cfg, s, (now, call)).registrations == s.registrations
  {
  }

  /** What a call can do to the registrations: add one, remove some, or nothing. */
  lemma RegistrationsEffect(cfg: Config, s: State, now: nat, call: Call)
    ensures var t := Apply(cfg, s, (now, call));
      || t.registrations == s.registrations
      || (call.Register? && call.slot !in RegsOf(s, call.id)
          && t.registrations == s.registrations[call.id := RegsOf(s, call.id)[call.slot := call.entry]])
      || (call.CleanRegistrations? && t.registrations == s.registrations[call.id := RegsOf(s, call.id) - call.doomed])
  {
    if call.RemoveScheduled? || call.Cancel? || call.Finalize? {
      DropKeepsRegistrations(cfg, s, now, call);
    } else if call.CloseRegistration? || call.CloseDrawing? || call.CloseClaiming? {
      CloseKeepsRegistrations(cfg, s, now, call);
    } else if call.StartRegistration? || call.DrawBatch? || call.CleanWinners? {
      MoveKeepsRegistrations(cfg, s, now, call);
    }
  }

  lemma StepOneSlot(cfg: Config, s: State, now: nat, call: Call)
    requires AllOneSlot(s) && OneSlot(s, call)
    ensures AllOneSlot(Apply(cfg, s, (now, call)))
  {
    var t := Apply(cfg, s, (now, call));
    RegistrationsEffect(cfg, s, now, call);
    forall id
      ensures OneSlotEach(RegsOf(t, id))
    {
      assert OneSlotEach(RegsOf(s, id));
    }
  }

  lemma {:induction false} RunOneSlot(cfg: Config, s: State, steps: seq<(nat, Call)>)
    requires AllOneSlot(s) && OneSlotRun(cfg, s, steps)
    ensures AllOneSlot(Run(cfg, s, steps))
    decreases |steps|
  {
    if steps != [] {
      StepOneSlot(cfg, s, steps[0].0, steps[0].1);
      assert steps[0] == (steps[0].0, steps[0].1);
      RunOneSlot(cfg, Apply(cfg, s, steps[0]), steps[1..]);
    }
  }

  lemma OneSlotDiffers(regs: map<Slot, Entry>, order: seq<Slot>, n: nat)
    requires OneSlotEach(regs) && Lists(order, regs) && n <= |order|
    ensures Different(regs, order[..n])
  {
    PrefixListed(regs, order, n);
  }

  /** Where callers keep the one-slot rule, every winner counted is stored: drawn or, later, claimed. */
  lemma CountersExact(cfg: Config, steps: seq<(nat, Call)>, id: EventId)
    requires OneSlotRun(cfg, Genesis(), steps)
    ensures var s := Run(cfg, Genesis(), steps);
      && (id in s.events && s.events[id].status.DrawWinners? ==> |WinnersOf(s, id)| == s.events[id].status.added)
      && (id in s.events && s.events[id].status.Claiming? ==> |WinnersOf(s, id)| + s.events[id].status.claimed == s.events[id].status.effective)
  {
    CountersAgree(cfg, steps, id);
    RunOneSlot(cfg, Genesis(), steps);
    var s := Run(cfg, Genesis(), steps);
    if id in s.events && (s.events[id].status.DrawWinners? || s.events[id].status.Claiming?) {
      var status := s.events[id].status;
      assert OneSlotEach(RegsOf(s, id));
      OrderLists(RegsOf(s, id), s.entropy[id]);
      OneSlotDiffers(RegsOf(s, id), DrawOrder(s, id), if status.DrawWinners? then status.added else status.effective);
    }
  }
}
