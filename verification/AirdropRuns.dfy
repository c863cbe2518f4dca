/** Every call of the airdrop pallet keeps the invariant, hence every run does. */
module AirdropRuns {
  import opened Prelude
  import opened Airdrop
  import opened AirdropInvariant
  import opened AirdropDraw

  // ---------------------------------------------------------------------------------------------
  // The two shapes of change
  // ---------------------------------------------------------------------------------------------

  /** `u` is `s` with the storage of event `id` and the held funds changed, nothing else. */
  ghost predicate OnlyEvent(s: State, u: State, id: EventId) {
    && u.events == s.events && u.schedule == s.schedule
    && forall j :: j != id ==> RegsOf(u, j) == RegsOf(s, j) && WinnersOf(u, j) == WinnersOf(s, j) && EntropyOf(u, j) == EntropyOf(s, j)
  }

  lemma TransitionSame(s: State, u: State, id: EventId, status: Status)
    requires id in s.events && OnlyEvent(s, u, id)
    ensures forall j :: j != id ==> SameEvent(s, Transition(u, id, status), j)
  {
  }

  lemma TransitionAt(cfg: Config, s: State, u: State, id: EventId, status: Status)
    requires Local(cfg, s, id) && id in s.events && OnlyEvent(s, u, id)
    requires Coherent(s.events[id].info, status, RegsOf(u, id), WinnersOf(u, id), EntropyOf(u, id))
    ensures Local(cfg, Transition(u, id, status), id)
  {
    var t := Transition(u, id, status);
    assert RegsOf(t, id) == RegsOf(u, id) && WinnersOf(t, id) == WinnersOf(u, id) && EntropyOf(t, id) == EntropyOf(u, id);
  }

  lemma TransitionLocal(cfg: Config, s: State, u: State, id: EventId, status: Status)
    requires AllLocal(cfg, s) && id in s.events && OnlyEvent(s, u, id)
    requires Coherent(s.events[id].info, status, RegsOf(u, id), WinnersOf(u, id), EntropyOf(u, id))
    ensures AllLocal(cfg, Transition(u, id, status))
  {
    assert Local(cfg, s, id);
    TransitionAt(cfg, s, u, id, status);
    TransitionSame(s, u, id, status);
    LocalFrame(cfg, s, Transition(u, id, status), id);
  }

  lemma TransitionKeeps(cfg: Config, s: State, u: State, id: EventId, status: Status)
    requires Inv(cfg, s) && id in s.events && OnlyEvent(s, u, id)
    requires Coherent(s.events[id].info, status, RegsOf(u, id), WinnersOf(u, id), EntropyOf(u, id))
    requires HeldExact(u.held, s.events[id := Event(s.events[id].info, status)])
    ensures Inv(cfg, Transition(u, id, status))
  {
    TransitionLocal(cfg, s, u, id, status);
    ScheduleMoves(s.events, s.schedule, id, status);
  }

  lemma SetStatusIsTransition(u: State, id: EventId, status: Status)
    requires id in u.events && NextAction(status, u.events[id].info) == NextAction(u.events[id].status, u.events[id].info)
    ensures SetStatus(u, id, status) == Transition(u, id, status)
  {
  }

  lemma DropLocal(cfg: Config, s: State, u: State, id: EventId)
    requires AllLocal(cfg, s) && id in s.events && OnlyEvent(s, u, id)
    requires RegsOf(u, id) == map[] && WinnersOf(u, id) == map[] && EntropyOf(u, id) == None
    ensures AllLocal(cfg, Drop(u, id))
  {
    var t := Drop(u, id);
    forall j | j != id
      ensures SameEvent(s, t, j)
    {
      assert RegsOf(u, j) == RegsOf(s, j);
    }
    assert Local(cfg, t, id);
    LocalFrame(cfg, s, t, id);
  }

  lemma DropKeeps(cfg: Config, s: State, u: State, id: EventId)
    requires Inv(cfg, s) && id in s.events && OnlyEvent(s, u, id)
    requires RegsOf(u, id) == map[] && WinnersOf(u, id) == map[] && EntropyOf(u, id) == None
    requires HeldExact(u.held, s.events - {id})
    ensures Inv(cfg, Drop(u, id))
  {
    DropLocal(cfg, s, u, id);
    ScheduleLoses(s.events, s.schedule, id);
  }

  lemma WinnersWrite(s: State, id: EventId, held: map<AssetId, nat>, w: map<Entry, Slot>, u: State)
    requires u == s.(held := held, winners := s.winners[id := w])
    ensures OnlyEvent(s, u, id) && RegsOf(u, id) == RegsOf(s, id) && WinnersOf(u, id) == w && EntropyOf(u, id) == EntropyOf(s, id)
  {
  }

  lemma EntropyWrite(s: State, id: EventId, held: map<AssetId, nat>, target: Slot, u: State)
    requires u == s.(held := held, entropy := s.entropy[id := target])
    ensures OnlyEvent(s, u, id) && RegsOf(u, id) == RegsOf(s, id) && WinnersOf(u, id) == WinnersOf(s, id) && EntropyOf(u, id) == Some(target)
  {
  }

  lemma WinnersCommit(cfg: Config, s: State, id: EventId, held: map<AssetId, nat>, w: map<Entry, Slot>, next: Status, u: State)
    requires Inv(cfg, s) && id in s.events && u == s.(held := held, winners := s.winners[id := w])
    requires NextAction(next, s.events[id].info) == NextAction(s.events[id].status, s.events[id].info)
    requires Coherent(s.events[id].info, next, RegsOf(s, id), w, EntropyOf(s, id))
    requires HeldExact(held, s.events[id := Event(s.events[id].info, next)])
    ensures Inv(cfg, SetStatus(u, id, next))
  {
    WinnersWrite(s, id, held, w, u);
    SetStatusIsTransition(u, id, next);
    TransitionKeeps(cfg, s, u, id, next);
  }

  lemma RegistrationsWrite(s: State, id: EventId, regs: map<Slot, Entry>, u: State)
    requires u == s.(registrations := s.registrations[id := regs])
    ensures OnlyEvent(s, u, id) && RegsOf(u, id) == regs && WinnersOf(u, id) == WinnersOf(s, id) && EntropyOf(u, id) == EntropyOf(s, id)
  {
  }

  lemma RegistrationsCommit(cfg: Config, s: State, id: EventId, regs: map<Slot, Entry>, next: Status, u: State)
    requires Inv(cfg, s) && id in s.events && u == s.(registrations := s.registrations[id := regs])
    requires NextAction(next, s.events[id].info) == NextAction(s.events[id].status, s.events[id].info)
    requires Coherent(s.events[id].info, next, regs, WinnersOf(s, id), EntropyOf(s, id))
    requires HeldExact(s.held, s.events[id := Event(s.events[id].info, next)])
    ensures Inv(cfg, SetStatus(u, id, next))
  {
    RegistrationsWrite(s, id, regs, u);
    SetStatusIsTransition(u, id, next);
    TransitionKeeps(cfg, s, u, id, next);
  }

  /** What the invariant says of one stored event. */
  lemma EventFacts(cfg: Config, s: State, id: EventId)
    requires Inv(cfg, s) && id in s.events
    ensures InfoOk(cfg, s.events[id].info)
    ensures Coherent(s.events[id].info, s.events[id].status, RegsOf(s, id), WinnersOf(s, id), EntropyOf(s, id))
  {
    assert Local(cfg, s, id);
  }

  // ---------------------------------------------------------------------------------------------
  // Call by call
  // ---------------------------------------------------------------------------------------------

  lemma ScheduleLocal(cfg: Config, s: State, id: EventId, info: Info, t: State)
    requires AllLocal(cfg, s) && Schedulable(cfg, s, id, info) && info.winnerCap <= PERMILL_ONE
    requires t.events == s.events[id := Event(info, Scheduled)]
    requires t.registrations == s.registrations && t.winners == s.winners && t.entropy == s.entropy
    ensures AllLocal(cfg, t)
  {
    assert Local(cfg, s, id);
    assert Local(cfg, t, id);
    forall j | j != id
      ensures SameEvent(s, t, j)
    {
    }
    LocalFrame(cfg, s, t, id);
  }

  lemma ScheduleKeeps(cfg: Config, s: State, id: EventId, info: Info, holdOk: bool)
    requires Inv(cfg, s) && ScheduleSpec(cfg, s, id, info, holdOk).Some?
    ensures Inv(cfg, ScheduleSpec(cfg, s, id, info, holdOk).value)
  {
    ScheduleLocal(cfg, s, id, info, ScheduleSpec(cfg, s, id, info, holdOk).value);
    ScheduleGains(s.events, s.schedule, id, Event(info, Scheduled));
    HeldAfterSchedule(s.held, s.events, id, info);
  }

  /** An event without participants leaves nothing behind when it is dropped. */
  lemma RefundKeeps(cfg: Config, s: State, id: EventId)
    requires Inv(cfg, s) && id in s.events
    requires s.events[id].status.Scheduled? || s.events[id].status == Registering(0)
    ensures Inv(cfg, RefundAndDrop(cfg, s, id))
  {
    assert Local(cfg, s, id);
    HeldAfterDrop(cfg, s.held, s.events, id);
    var info := s.events[id].info;
    DropKeeps(cfg, s, s.(held := Release(cfg, s.held, info, info.maxWinners)), id);
  }

  /** Cancelling while registering releases the whole allocation at once. */
  lemma CancelRegisteringKeeps(cfg: Config, s: State, id: EventId)
    requires Inv(cfg, s) && id in s.events && s.events[id].status.Registering?
    ensures CancelSpec(cfg, s, id).Some? && Inv(cfg, CancelSpec(cfg, s, id).value)
  {
    assert Local(cfg, s, id);
    var info, next := s.events[id].info, ClearingRegistrations(s.events[id].status.total, 0, 0, 0);
    HeldAfterRelease(cfg, s.held, s.events, id, info.maxWinners, next);
    TransitionKeeps(cfg, s, s.(held := Release(cfg, s.held, info, info.maxWinners)), id, next);
  }

  /** Cancelling during or after the draw leaves the outstanding prizes to the clean-up. */
  lemma StopKeeps(cfg: Config, s: State, id: EventId, total: nat, effective: nat, claimed: nat)
    requires Inv(cfg, s) && id in s.events
    requires s.events[id].status == Claiming(total, effective, claimed)
          || (s.events[id].status.DrawWinners? && s.events[id].status.total == total && s.events[id].status.effective == effective && claimed == 0)
    ensures Inv(cfg, Transition(s, id, ClearingRegistrations(total, effective, claimed, 0)))
  {
    assert Local(cfg, s, id);
    var next := ClearingRegistrations(total, effective, claimed, 0);
    StopCoherent(s.events[id].info, s.events[id].status, RegsOf(s, id), WinnersOf(s, id), EntropyOf(s, id), total, effective, claimed);
    HeldAfterStatus(s.held, s.events, id, next);
    TransitionKeeps(cfg, s, s, id, next);
  }

  lemma CancelKeeps(cfg: Config, s: State, id: EventId)
    requires Inv(cfg, s)
    ensures CancelSpec(cfg, s, id).Some? && Inv(cfg, CancelSpec(cfg, s, id).value)
  {
    if id in s.events {
      match s.events[id].status {
        case Scheduled => RefundKeeps(cfg, s, id);
        case Registering(_) => CancelRegisteringKeeps(cfg, s, id);
        case DrawWinners(total, effective, _, _) => StopKeeps(cfg, s, id, total, effective, 0);
        case Claiming(total, effective, claimed) => StopKeeps(cfg, s, id, total, effective, claimed);
        case _ =>
      }
    }
  }

  lemma RegisterKeeps(cfg: Config, s: State, id: EventId, slot: Slot, entry: Entry)
    requires Inv(cfg, s) && RegisterSpec(s, id, slot, entry).Some?
    ensures Inv(cfg, RegisterSpec(s, id, slot, entry).value)
  {
    EventFacts(cfg, s, id);
    var total, regs := s.events[id].status.total, RegsOf(s, id)[slot := entry];
    RegisterCounts(RegsOf(s, id), total, slot, entry);
    HeldAfterStatus(s.held, s.events, id, Registering(total + 1));
    RegistrationsCommit(cfg, s, id, regs, Registering(total + 1), s.(registrations := s.registrations[id := regs]));
  }

  /** The claim's exact release succeeds, and the prize leaves the pot once. */
  lemma HeldAfterClaim(cfg: Config, s: State, id: EventId, total: nat, effective: nat, claimed: nat)
    requires HeldExact(s.held, s.events) && id in s.events && InfoOk(cfg, s.events[id].info)
    requires s.events[id].status == Claiming(total, effective, claimed) && claimed < effective <= s.events[id].info.maxWinners
    ensures var info := s.events[id].info;
      && info.amount <= Balance(s.held, info.asset)
      && HeldExact(s.held[info.asset := Balance(s.held, info.asset) - info.amount],
                   s.events[id := Event(info, Claiming(total, effective, claimed + 1))])
  {
    var info := s.events[id].info;
    ReleaseIsFull(cfg, s.held, s.events, id, 1);
    HeldAfterRelease(cfg, s.held, s.events, id, 1, Claiming(total, effective, claimed + 1));
    assert Release(cfg, s.held, info, 1) == s.held[info.asset := Balance(s.held, info.asset) - info.amount];
  }

  lemma ClaimKeeps(cfg: Config, s: State, now: nat, id: EventId, entry: Entry, transferOk: bool)
    requires Inv(cfg, s) && ClaimSpec(s, now, id, entry, transferOk).Some?
    ensures Inv(cfg, ClaimSpec(s, now, id, entry, transferOk).value)
  {
    assert Local(cfg, s, id);
    var info := s.events[id].info;
    var Claiming(total, effective, claimed) := s.events[id].status;
    ClaimCoherent(info, RegsOf(s, id), WinnersOf(s, id), EntropyOf(s, id), total, effective, claimed, entry);
    HeldAfterClaim(cfg, s, id, total, effective, claimed);
    var held, next := s.held[info.asset := Balance(s.held, info.asset) - info.amount], Claiming(total, effective, claimed + 1);
    var u := s.(held := held, winners := s.winners[id := WinnersOf(s, id) - {entry}]);
    WinnersCommit(cfg, s, id, held, WinnersOf(s, id) - {entry}, next, u);
    ClaimResult(s, now, id, entry, transferOk, u, next);
  }

  lemma ClaimResult(s: State, now: nat, id: EventId, entry: Entry, transferOk: bool, u: State, next: Status)
    requires ClaimSpec(s, now, id, entry, transferOk).Some? && Balance(s.held, s.events[id].info.asset) >= s.events[id].info.amount
    requires u == s.(held := s.held[s.events[id].info.asset := Balance(s.held, s.events[id].info.asset) - s.events[id].info.amount],
                     winners := s.winners[id := WinnersOf(s, id) - {entry}])
    requires var st := s.events[id].status; st.claimed < U32_MAX && next == Claiming(st.total, st.effective, st.claimed + 1)
    ensures ClaimSpec(s, now, id, entry, transferOk).value == SetStatus(u, id, next)
  {
  }

  lemma StartKeeps(cfg: Config, s: State, now: nat, id: EventId)
    requires Inv(cfg, s) && StartSpec(s, now, id).Some?
    ensures Inv(cfg, StartSpec(s, now, id).value)
  {
    assert Local(cfg, s, id);
    HeldAfterStatus(s.held, s.events, id, Registering(0));
    TransitionKeeps(cfg, s, s, id, Registering(0));
  }

  lemma CloseRegistrationKeeps(cfg: Config, s: State, now: nat, id: EventId, randomness: Option<Slot>)
    requires Inv(cfg, s) && CloseRegistrationSpec(cfg, s, now, id, randomness).Some?
    ensures Inv(cfg, CloseRegistrationSpec(cfg, s, now, id, randomness).value)
  {
    var total := s.events[id].status.total;
    if total == 0 {
      RefundKeeps(cfg, s, id);
    } else if randomness.Some? {
      assert Local(cfg, s, id);
      EffectiveBounds(cfg, s.events[id].info, total);
      StartDrawKeeps(cfg, s, id, total, EffectiveWinners(s.events[id].info, total), randomness.value);
    }
  }

  lemma EntropyCommits(cfg: Config, s: State, id: EventId, held: map<AssetId, nat>, target: Slot, next: Status)
    requires Inv(cfg, s) && id in s.events
    requires Coherent(s.events[id].info, next, RegsOf(s, id), WinnersOf(s, id), Some(target))
    requires HeldExact(held, s.events[id := Event(s.events[id].info, next)])
    ensures Inv(cfg, Transition(s.(held := held, entropy := s.entropy[id := target]), id, next))
  {
    var u := s.(held := held, entropy := s.entropy[id := target]);
    EntropyWrite(s, id, held, target, u);
    TransitionKeeps(cfg, s, u, id, next);
  }

  lemma StartDrawHeld(cfg: Config, s: State, id: EventId, total: nat, effective: nat, next: Status)
    requires Inv(cfg, s) && id in s.events && s.events[id].status == Registering(total)
    requires EffectiveOk(s.events[id].info, effective, total) && next.DrawWinners? && next.effective == effective
    ensures HeldExact(Release(cfg, s.held, s.events[id].info, SatSub(s.events[id].info.maxWinners, effective)),
                      s.events[id := Event(s.events[id].info, next)])
  {
    assert Local(cfg, s, id);
    HeldAfterRelease(cfg, s.held, s.events, id, s.events[id].info.maxWinners - effective, next);
  }

  lemma StartDrawReady(cfg: Config, s: State, id: EventId, total: nat, effective: nat, target: Slot)
    requires Inv(cfg, s) && id in s.events && s.events[id].status == Registering(total)
    requires EffectiveOk(s.events[id].info, effective, total)
    ensures Coherent(s.events[id].info, DrawWinners(total, effective, 0, target), RegsOf(s, id), WinnersOf(s, id), Some(target))
  {
    assert Local(cfg, s, id);
    StartDrawCoherent(s.events[id].info, RegsOf(s, id), WinnersOf(s, id), EntropyOf(s, id), total, effective, target);
  }

  lemma StartDrawKeeps(cfg: Config, s: State, id: EventId, total: nat, effective: nat, target: Slot)
    requires Inv(cfg, s) && id in s.events && s.events[id].status == Registering(total)
    requires EffectiveOk(s.events[id].info, effective, total)
    ensures var info := s.events[id].info;
      Inv(cfg, Transition(
        s.(held := Release(cfg, s.held, info, SatSub(info.maxWinners, effective)), entropy := s.entropy[id := target]),
        id, DrawWinners(total, effective, 0, target)))
  {
    var unused, next := SatSub(s.events[id].info.maxWinners, effective), DrawWinners(total, effective, 0, target);
    StartDrawReady(cfg, s, id, total, effective, target);
    StartDrawHeld(cfg, s, id, total, effective, next);
    EntropyCommits(cfg, s, id, Release(cfg, s.held, s.events[id].info, unused), target, next);
  }

  /** What one batch makes of the event. */
  lemma DrawReady(cfg: Config, s: State, id: EventId, status: Status, batch: seq<Slot>)
    requires Inv(cfg, s) && id in s.events && status == s.events[id].status && status.DrawWinners?
    requires batch == NextSlots(RegsOf(s, id), status.from, Min(SatSub(status.effective, status.added), cfg.drawLimit))
    ensures status.added <= status.effective <= MAX_WINNERS && |batch| == Min(status.effective - status.added, cfg.drawLimit)
    ensures Coherent(s.events[id].info, AfterBatch(status, batch), RegsOf(s, id), AddWinners(WinnersOf(s, id), RegsOf(s, id), batch), EntropyOf(s, id))
  {
    EventFacts(cfg, s, id);
    BatchCoherent(s.events[id].info, status, RegsOf(s, id), WinnersOf(s, id), EntropyOf(s, id), cfg.drawLimit, batch);
  }

  lemma DrawKeeps(cfg: Config, s: State, id: EventId)
    requires Inv(cfg, s) && DrawSpec(cfg, s, id).Some?
    ensures Inv(cfg, DrawSpec(cfg, s, id).value)
  {
    var regs, status := RegsOf(s, id), s.events[id].status;
    var batch := NextSlots(regs, status.from, Min(SatSub(status.effective, status.added), cfg.drawLimit));
    var w, next := AddWinners(WinnersOf(s, id), regs, batch), AfterBatch(status, batch);
    DrawReady(cfg, s, id, status, batch);
    HeldAfterStatus(s.held, s.events, id, next);
    WinnersCommit(cfg, s, id, s.held, w, next, s.(winners := s.winners[id := w]));
  }

  lemma CloseDrawingReady(cfg: Config, s: State, id: EventId, total: nat, effective: nat, from: Slot)
    requires Inv(cfg, s) && id in s.events && s.events[id].status == DrawWinners(total, effective, effective, from)
    ensures Coherent(s.events[id].info, Claiming(total, effective, 0), RegsOf(s, id), WinnersOf(s, id), EntropyOf(s, id))
  {
    EventFacts(cfg, s, id);
    var regs, target := RegsOf(s, id), EntropyOf(s, id).value;
    DrawEnds(s.events[id].info, regs, WinnersOf(s, id), Order(regs, target), target, total, effective, from);
  }

  lemma CloseDrawingKeeps(cfg: Config, s: State, id: EventId)
    requires Inv(cfg, s) && CloseDrawingSpec(s, id).Some?
    ensures Inv(cfg, CloseDrawingSpec(s, id).value)
  {
    var DrawWinners(total, effective, added, from) := s.events[id].status;
    CloseDrawingReady(cfg, s, id, total, effective, from);
    HeldAfterStatus(s.held, s.events, id, Claiming(total, effective, 0));
    TransitionKeeps(cfg, s, s, id, Claiming(total, effective, 0));
  }

  lemma CloseClaimingKeeps(cfg: Config, s: State, now: nat, id: EventId)
    requires Inv(cfg, s) && CloseClaimingSpec(s, now, id).Some?
    ensures Inv(cfg, CloseClaimingSpec(s, now, id).value)
  {
    assert Local(cfg, s, id);
    var Claiming(total, effective, claimed) := s.events[id].status;
    StopKeeps(cfg, s, id, total, effective, claimed);
  }

  lemma CleanRegistrationsKeeps(cfg: Config, s: State, id: EventId, doomed: set<Slot>)
    requires Inv(cfg, s) && CleanRegistrationsSpec(cfg, s, id, doomed).Some?
    ensures Inv(cfg, CleanRegistrationsSpec(cfg, s, id, doomed).value)
  {
    EventFacts(cfg, s, id);
    var ClearingRegistrations(total, effective, claimed, cleaned) := s.events[id].status;
    var rest := RegsOf(s, id) - doomed;
    var next := CleanRegistrationsCoherent(s.events[id].info, RegsOf(s, id), WinnersOf(s, id), EntropyOf(s, id),
                                           total, effective, claimed, cleaned, cfg.clearLimit, doomed);
    HeldAfterStatus(s.held, s.events, id, next);
    RegistrationsCommit(cfg, s, id, rest, next, s.(registrations := s.registrations[id := rest]));
  }

  lemma CleanWinnersKeeps(cfg: Config, s: State, id: EventId, gone: set<Entry>)
    requires Inv(cfg, s) && CleanWinnersSpec(cfg, s, id, gone).Some?
    ensures Inv(cfg, CleanWinnersSpec(cfg, s, id, gone).value)
  {
    EventFacts(cfg, s, id);
    var ClearingWinners(total, effective, claimed, cleaned) := s.events[id].status;
    var rest := WinnersOf(s, id) - gone;
    var next := CleanWinnersCoherent(s.events[id].info, RegsOf(s, id), WinnersOf(s, id), EntropyOf(s, id),
                                     total, effective, claimed, cleaned, cfg.clearLimit, gone);
    HeldAfterStatus(s.held, s.events, id, next);
    WinnersCommit(cfg, s, id, s.held, rest, next, s.(winners := s.winners[id := rest]));
  }

  lemma EntropyErase(s: State, id: EventId, held: map<AssetId, nat>, u: State)
    requires u == s.(held := held, entropy := s.entropy - {id})
    ensures OnlyEvent(s, u, id) && RegsOf(u, id) == RegsOf(s, id) && WinnersOf(u, id) == WinnersOf(s, id) && EntropyOf(u, id) == None
  {
  }

  lemma FinalizeKeeps(cfg: Config, s: State, id: EventId)
    requires Inv(cfg, s) && FinalizeSpec(cfg, s, id).Some?
    ensures Inv(cfg, FinalizeSpec(cfg, s, id).value)
  {
    EventFacts(cfg, s, id);
    var e := s.events[id];
    HeldAfterDrop(cfg, s.held, s.events, id);
    var held := Release(cfg, s.held, e.info, Outstanding(e));
    var u := s.(held := held, entropy := s.entropy - {id});
    EntropyErase(s, id, held, u);
    DropKeeps(cfg, s, u, id);
  }

  lemma AssetKeeps(cfg: Config, s: State, supported: map<AssetId, nat>)
    requires Inv(cfg, s)
    ensures Inv(cfg, s.(supported := supported))
  {
    forall id
      ensures Local(cfg, s.(supported := supported), id)
    {
      assert Local(cfg, s, id);
    }
  }

  // ---------------------------------------------------------------------------------------------
  // Runs
  // ---------------------------------------------------------------------------------------------

  lemma ApplyKeeps(cfg: Config, s: State, now: nat, call: Call)
    requires Inv(cfg, s)
    ensures Inv(cfg, Apply(cfg, s, (now, call)))
  {
    if Outcome(cfg, s, now, call).Some? {
      match call {
        case Schedule(id, info, holdOk) => ScheduleKeeps(cfg, s, id, info, holdOk);
        case RemoveScheduled(id) => RefundKeeps(cfg, s, id);
        case Cancel(id) => CancelKeeps(cfg, s, id);
        case EnableAsset(asset, ok) => AssetKeeps(cfg, s, EnableSpec(cfg, s, asset, ok).value.supported);
        case DisableAsset(asset, ok) => AssetKeeps(cfg, s, DisableSpec(s, asset, ok).value.supported);
        case Register(id, slot, entry) => RegisterKeeps(cfg, s, id, slot, entry);
        case Claim(id, entry, ok) => ClaimKeeps(cfg, s, now, id, entry, ok);
        case StartRegistration(id) => StartKeeps(cfg, s, now, id);
        case CloseRegistration(id, randomness) => CloseRegistrationKeeps(cfg, s, now, id, randomness);
        case DrawBatch(id) => DrawKeeps(cfg, s, id);
        case CloseDrawing(id) => CloseDrawingKeeps(cfg, s, id);
        case CloseClaiming(id) => CloseClaimingKeeps(cfg, s, now, id);
        case CleanRegistrations(id, doomed) => CleanRegistrationsKeeps(cfg, s, id, doomed);
        case CleanWinners(id, gone) => CleanWinnersKeeps(cfg, s, id, gone);
        case Finalize(id) => FinalizeKeeps(cfg, s, id);
      }
    }
  }

  /** Any interleaving of calls on any number of events, failed calls included. */
  lemma {:induction false} RunKeeps(cfg: Config, s: State, steps: seq<(nat, Call)>)
    requires Inv(cfg, s)
    ensures Inv(cfg, Run(cfg, s, steps))
    decreases |steps|
  {
    if steps != [] {
      ApplyKeeps(cfg, s, steps[0].0, steps[0].1);
      RunKeeps(cfg, Apply(cfg, s, steps[0]), steps[1..]);
    }
  }

  function Genesis(): State {
    State(map[], {}, map[], map[], map[], map[], map[])
  }

  lemma GenesisInv(cfg: Config)
    ensures Inv(cfg, Genesis())
  {
    forall a
      ensures Owed(map[], a) == 0
    {
      assert Shares(map[], a) == map[];
    }
  }

  /** From genesis, over every run, the pot holds exactly the outstanding prizes of each asset. */
  lemma HoldConservation(cfg: Config, steps: seq<(nat, Call)>, a: AssetId)
    ensures var s := Run(cfg, Genesis(), steps); Balance(s.held, a) == Owed(s.events, a)
  {
    GenesisInv(cfg);
    RunKeeps(cfg, Genesis(), steps);
  }

  /** An event that is gone has no registrations, winners, entropy or schedule entry. */
  lemma CleanRemoval(cfg: Config, steps: seq<(nat, Call)>, id: EventId, t: nat)
    ensures var s := Run(cfg, Genesis(), steps);
      id !in s.events ==> RegsOf(s, id) == map[] && WinnersOf(s, id) == map[] && EntropyOf(s, id) == None && (t, id) !in s.schedule
  {
    GenesisInv(cfg);
    RunKeeps(cfg, Genesis(), steps);
    var s := Run(cfg, Genesis(), steps);
    assert Local(cfg, s, id);
    assert (t, id) in s.schedule <==> Planned(s.events, t, id);
  }
}
