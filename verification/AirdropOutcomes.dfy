/**
  What every airdrop call does to an event, the pot and the index: when it takes effect, the status it
  leaves, the prizes it releases, and the time of the next action.
*/
module AirdropOutcomes {
  import opened Prelude
  import opened Powers
  import opened Airdrop
  import opened AirdropInvariant
  import opened AirdropRuns
  import AirdropDraw

  function After(cfg: Config, s: State, now: nat, call: Call): State {
    Apply(cfg, s, (now, call))
  }

  /** The pot holds `count` prizes of the event fewer, in the event's asset; every other balance is the same. */
  ghost predicate Released(s: State, t: State, info: Info, count: int) {
    forall a :: Balance(t.held, a) == Balance(s.held, a) - (if a == info.asset then info.amount * count else 0)
  }

  /** The event has the status, and its index entry stands at the time `at` instead of `was`. */
  ghost predicate Moved(s: State, t: State, id: EventId, status: Status, was: nat, at: nat)
    requires id in s.events
  {
    && t.events == s.events[id := Event(s.events[id].info, status)]
    && (forall e :: e in t.schedule <==> e == (at, id) || (e in s.schedule && (e != (was, id) || was == at)))
  }

  /** The event and its index entry are gone. */
  ghost predicate Gone(s: State, t: State, id: EventId, was: nat) {
    t.events == s.events - {id} && forall e :: e in t.schedule <==> e in s.schedule && e != (was, id)
  }

  ghost predicate SameEntries(s: State, t: State) {
    t.registrations == s.registrations && t.winners == s.winners
  }

  /** The index has the event's entry, so a move that keeps the time keeps the index. */
  lemma EntryStands(cfg: Config, s: State, id: EventId, at: nat)
    requires Inv(cfg, s) && id in s.events && at == NextAction(s.events[id].status, s.events[id].info)
    ensures (at, id) in s.schedule
  {
    assert Planned(s.events, at, id);
  }

  // ---------------------------------------------------------------------------------------------
  // Scheduling and assets
  // ---------------------------------------------------------------------------------------------

  ghost predicate Admissible(cfg: Config, s: State, id: EventId, info: Info) {
    && id !in s.events && 0 < info.maxWinners <= 10_000 && info.winnerCap <= 1_000_000
    && info.registrationStarts < info.drawTime < info.endTime
    && info.asset in s.supported && Balance(cfg.minBalance, info.asset) <= info.amount
    && info.amount * info.maxWinners <= cfg.maxBalance
  }

  /** A scheduled event holds all its prizes and waits for its registrations to start. */
  lemma ScheduleOutcome(cfg: Config, s: State, now: nat, id: EventId, info: Info, holdOk: bool)
    ensures var t := After(cfg, s, now, Schedule(id, info, holdOk));
      if Admissible(cfg, s, id, info) && holdOk
      then
        && t == s.(events := s.events[id := Event(info, Scheduled)], schedule := s.schedule + {(info.registrationStarts, id)}, held := t.held)
        && forall a :: Balance(t.held, a) == Balance(s.held, a) + (if a == info.asset then info.amount * info.maxWinners else 0)
      else t == s
  {
  }

  lemma AssetOutcome(cfg: Config, s: State, now: nat, asset: AssetId, ok: bool)
    ensures After(cfg, s, now, EnableAsset(asset, ok))
         == if asset !in s.supported && ok then s.(supported := s.supported[asset := Balance(cfg.minBalance, asset)]) else s
    ensures After(cfg, s, now, DisableAsset(asset, ok))
         == if asset in s.supported && ok then s.(supported := s.supported - {asset}) else s
  {
  }

  // ---------------------------------------------------------------------------------------------
  // Ending an event early
  // ---------------------------------------------------------------------------------------------

  /** A scheduled event can be removed, and all its prizes go back. */
  lemma RemoveOutcome(cfg: Config, s: State, now: nat, id: EventId)
    requires Inv(cfg, s)
    ensures var t := After(cfg, s, now, RemoveScheduled(id));
      if id in s.events && s.events[id].status == Scheduled
      then
        && t == s.(events := t.events, schedule := t.schedule, held := t.held)
        && Gone(s, t, id, s.events[id].info.registrationStarts) && Released(s, t, s.events[id].info, s.events[id].info.maxWinners)
      else t == s
  {
    if id in s.events && s.events[id].status == Scheduled {
      FullRefund(cfg, s, id);
    }
  }

  /** Nothing was drawn yet, so every prize is outstanding and released in full. */
  lemma FullRefund(cfg: Config, s: State, id: EventId)
    requires Inv(cfg, s) && id in s.events && (s.events[id].status.Scheduled? || s.events[id].status.Registering?)
    ensures var info := s.events[id].info;
      forall a :: Balance(Release(cfg, s.held, info, info.maxWinners), a)
               == Balance(s.held, a) - (if a == info.asset then info.amount * info.maxWinners else 0)
  {
    EventFacts(cfg, s, id);
    ReleaseIsFull(cfg, s.held, s.events, id, s.events[id].info.maxWinners);
  }

  /** What a cancellation makes of each status. */
  ghost predicate Cancelled(s: State, t: State, id: EventId)
    requires id in s.events
  {
    var info := s.events[id].info;
    match s.events[id].status
    case Scheduled =>
      && t == s.(events := t.events, schedule := t.schedule, held := t.held)
      && Gone(s, t, id, info.registrationStarts) && Released(s, t, info, info.maxWinners)
    case Registering(total) =>
      && t == s.(events := t.events, schedule := t.schedule, held := t.held)
      && Moved(s, t, id, ClearingRegistrations(total, 0, 0, 0), info.drawTime, info.endTime) && Released(s, t, info, info.maxWinners)
    case DrawWinners(total, effective, _, _) =>
      && t == s.(events := t.events, schedule := t.schedule)
      && Moved(s, t, id, ClearingRegistrations(total, effective, 0, 0), info.drawTime, info.endTime)
    case Claiming(total, effective, claimed) =>
      && t == s.(events := t.events, schedule := t.schedule)
      && Moved(s, t, id, ClearingRegistrations(total, effective, claimed, 0), info.endTime, info.endTime)
    case _ => t == s
  }

  /** A transition in the terms of `Moved`. */
  lemma TransitionMoves(s: State, u: State, id: EventId, status: Status, was: nat, at: nat)
    requires id in s.events && u.events == s.events && u.schedule == s.schedule
    requires was == NextAction(s.events[id].status, s.events[id].info) && at == NextAction(status, s.events[id].info)
    requires was == at ==> (at, id) in s.schedule
    ensures Moved(s, Transition(u, id, status), id, status, was, at)
    ensures Transition(u, id, status) == u.(events := Transition(u, id, status).events, schedule := Transition(u, id, status).schedule)
  {
  }

  lemma DropGoes(s: State, u: State, id: EventId, was: nat)
    requires id in s.events && u.events == s.events && u.schedule == s.schedule
    requires was == NextAction(s.events[id].status, s.events[id].info)
    ensures Gone(s, Drop(u, id), id, was)
    ensures Drop(u, id) == u.(events := Drop(u, id).events, schedule := Drop(u, id).schedule)
  {
  }

  lemma CancelEarly(cfg: Config, s: State, now: nat, id: EventId)
    requires Inv(cfg, s) && id in s.events && (s.events[id].status.Scheduled? || s.events[id].status.Registering?)
    ensures Cancelled(s, After(cfg, s, now, Cancel(id)), id)
  {
    var info := s.events[id].info;
    var u := s.(held := Release(cfg, s.held, info, info.maxWinners));
    FullRefund(cfg, s, id);
    TimesDiffer(cfg, s, id);
    if s.events[id].status.Scheduled? {
      DropGoes(s, u, id, info.registrationStarts);
    } else {
      TransitionMoves(s, u, id, ClearingRegistrations(s.events[id].status.total, 0, 0, 0), info.drawTime, info.endTime);
    }
  }

  lemma CancelLate(cfg: Config, s: State, now: nat, id: EventId)
    requires Inv(cfg, s) && id in s.events && (s.events[id].status.DrawWinners? || s.events[id].status.Claiming?)
    ensures Cancelled(s, After(cfg, s, now, Cancel(id)), id)
  {
    var info := s.events[id].info;
    TimesDiffer(cfg, s, id);
    match s.events[id].status {
      case DrawWinners(total, effective, _, _) =>
        TransitionMoves(s, s, id, ClearingRegistrations(total, effective, 0, 0), info.drawTime, info.endTime);
      case Claiming(total, effective, claimed) =>
        EntryStands(cfg, s, id, info.endTime);
        TransitionMoves(s, s, id, ClearingRegistrations(total, effective, claimed, 0), info.endTime, info.endTime);
    }
  }

  lemma TimesDiffer(cfg: Config, s: State, id: EventId)
    requires Inv(cfg, s) && id in s.events
    ensures var info := s.events[id].info; info.registrationStarts < info.drawTime < info.endTime
  {
    EventFacts(cfg, s, id);
  }

  lemma CancelOutcome(cfg: Config, s: State, now: nat, id: EventId)
    requires Inv(cfg, s)
    ensures if id in s.events then Cancelled(s, After(cfg, s, now, Cancel(id)), id) else After(cfg, s, now, Cancel(id)) == s
  {
    if id in s.events {
      match s.events[id].status {
        case Scheduled => CancelEarly(cfg, s, now, id);
        case Registering(_) => CancelEarly(cfg, s, now, id);
        case DrawWinners(_, _, _, _) => CancelLate(cfg, s, now, id);
        case Claiming(_, _, _) => CancelLate(cfg, s, now, id);
        case _ =>
      }
    }
  }

  // ---------------------------------------------------------------------------------------------
  // Registration
  // ---------------------------------------------------------------------------------------------

  lemma StartOutcome(cfg: Config, s: State, now: nat, id: EventId)
    requires Inv(cfg, s)
    ensures var t := After(cfg, s, now, StartRegistration(id));
      if id in s.events && s.events[id].status == Scheduled && s.events[id].info.registrationStarts <= now
      then
        && t == s.(events := t.events, schedule := t.schedule)
        && Moved(s, t, id, Registering(0), s.events[id].info.registrationStarts, s.events[id].info.drawTime)
      else t == s
  {
    if id in s.events {
      EventFacts(cfg, s, id);
    }
  }

  /** A free slot is taken for the registrant and counted. */
  lemma RegisterOutcome(cfg: Config, s: State, now: nat, id: EventId, slot: Slot, entry: Entry)
    requires Inv(cfg, s)
    ensures var t := After(cfg, s, now, Register(id, slot, entry));
      if id in s.events && s.events[id].status.Registering? && s.events[id].status.total < U32_MAX
         && !(id in s.registrations && slot in s.registrations[id])
      then
        && t == s.(events := s.events[id := Event(s.events[id].info, Registering(s.events[id].status.total + 1))], registrations := t.registrations)
        && t.registrations == s.registrations[id := (if id in s.registrations then s.registrations[id] else map[])[slot := entry]]
      else t == s
  {
    if id in s.events && s.events[id].status.Registering? {
      EventFacts(cfg, s, id);
    }
  }

  /**
    As many winners as the cap allows of the participants, but at least one and at most the maximum:
    the cap is a share in parts per million, rounded down.
  */
  ghost predicate Drawable(info: Info, total: nat, effective: nat) {
    && 1 <= effective
    && (effective == 1 || (effective <= info.maxWinners && effective * 1_000_000 <= info.winnerCap * total))
    && (effective >= info.maxWinners || (effective + 1) * 1_000_000 > info.winnerCap * total)
  }

  lemma WinnersAreDrawable(info: Info, total: nat)
    ensures Drawable(info, total, EffectiveWinners(info, total))
  {
    DivRebuild(info.winnerCap * total, PERMILL_ONE);
  }

  /** The event was refunded and dropped: nobody had registered. */
  ghost predicate CalledOff(s: State, t: State, id: EventId)
    requires id in s.events
  {
    && t == s.(events := t.events, schedule := t.schedule, held := t.held)
    && Gone(s, t, id, s.events[id].info.drawTime) && Released(s, t, s.events[id].info, s.events[id].info.maxWinners)
  }

  /** The prizes nobody can win are released, and the draw starts at the entropy point. */
  ghost predicate DrawStarted(s: State, t: State, id: EventId, total: nat, target: Slot)
    requires id in s.events
  {
    var info := s.events[id].info;
    && t == s.(events := t.events, held := t.held, entropy := s.entropy[id := target])
    && id in t.events && t.events[id].status.DrawWinners? && Drawable(info, total, t.events[id].status.effective)
    && t.events == s.events[id := Event(info, DrawWinners(total, t.events[id].status.effective, 0, target))]
    && Released(s, t, info, info.maxWinners - t.events[id].status.effective)
  }

  lemma CloseEmpty(cfg: Config, s: State, now: nat, id: EventId, randomness: Option<Slot>)
    requires Inv(cfg, s) && id in s.events && s.events[id].status == Registering(0) && s.events[id].info.drawTime <= now
    ensures CalledOff(s, After(cfg, s, now, CloseRegistration(id, randomness)), id)
  {
    var info := s.events[id].info;
    FullRefund(cfg, s, id);
    DropGoes(s, s.(held := Release(cfg, s.held, info, info.maxWinners)), id, info.drawTime);
  }

  lemma CloseStarts(cfg: Config, s: State, now: nat, id: EventId, target: Slot)
    requires Inv(cfg, s) && id in s.events && s.events[id].status.Registering? && s.events[id].status.total > 0
    requires s.events[id].info.drawTime <= now
    ensures DrawStarted(s, After(cfg, s, now, CloseRegistration(id, Some(target))), id, s.events[id].status.total, target)
  {
    WinnersAreDrawable(s.events[id].info, s.events[id].status.total);
    UnusedReleased(cfg, s, id);
  }

  lemma UnusedReleased(cfg: Config, s: State, id: EventId)
    requires Inv(cfg, s) && id in s.events && s.events[id].status.Registering?
    ensures var info := s.events[id].info;
      var count := info.maxWinners - EffectiveWinners(info, s.events[id].status.total);
      count >= 0 && forall a :: Balance(Release(cfg, s.held, info, count), a) == Balance(s.held, a) - (if a == info.asset then info.amount * count else 0)
  {
    EventFacts(cfg, s, id);
    ReleaseIsFull(cfg, s.held, s.events, id, s.events[id].info.maxWinners - EffectiveWinners(s.events[id].info, s.events[id].status.total));
  }

  /**
    Registration closes at the draw time. Without participants the event is refunded and dropped;
    without randomness it waits; otherwise the draw starts, for as many winners as the cap allows.
  */
  lemma CloseOutcome(cfg: Config, s: State, now: nat, id: EventId, randomness: Option<Slot>)
    requires Inv(cfg, s)
    ensures var t := After(cfg, s, now, CloseRegistration(id, randomness));
      if !(id in s.events && s.events[id].status.Registering? && s.events[id].info.drawTime <= now) then t == s
      else if s.events[id].status.total == 0 then CalledOff(s, t, id)
      else if randomness.None? then t == s
      else DrawStarted(s, t, id, s.events[id].status.total, randomness.value)
  {
    if id in s.events && s.events[id].status.Registering? && s.events[id].info.drawTime <= now {
      if s.events[id].status.total == 0 {
        CloseEmpty(cfg, s, now, id, randomness);
      } else if randomness.Some? {
        CloseStarts(cfg, s, now, id, randomness.value);
      }
    }
  }

  // ---------------------------------------------------------------------------------------------
  // Drawing and claiming
  // ---------------------------------------------------------------------------------------------

  /** A batch of the draw adds as many winners as the limit allows and are still missing; entries of `DrawOutcome`. */
  lemma DrawBatchOutcome(cfg: Config, s: State, now: nat, id: EventId)
    requires Inv(cfg, s)
    ensures var t := After(cfg, s, now, DrawBatch(id));
      if id in s.events && s.events[id].status.DrawWinners?
      then
        var status := s.events[id].status;
        && t == s.(events := t.events, winners := t.winners) && id in t.events && t.events.Keys == s.events.Keys
        && (forall j :: j in s.events && j != id ==> t.events[j] == s.events[j])
        && t.events[id].info == s.events[id].info && t.events[id].status.DrawWinners?
        && t.events[id].status.total == status.total && t.events[id].status.effective == status.effective
        && t.events[id].status.added == Min(status.effective, status.added + cfg.drawLimit)
      else t == s
  {
    if id in s.events && s.events[id].status.DrawWinners? {
      var status := s.events[id].status;
      DrawReady(cfg, s, id, status, NextSlots(RegsOf(s, id), status.from, Min(SatSub(status.effective, status.added), cfg.drawLimit)));
    }
  }

  lemma CloseDrawingOutcome(cfg: Config, s: State, now: nat, id: EventId)
    requires Inv(cfg, s)
    ensures var t := After(cfg, s, now, CloseDrawing(id));
      if id in s.events && s.events[id].status.DrawWinners? && s.events[id].status.added == s.events[id].status.effective
      then
        && t == s.(events := t.events, schedule := t.schedule)
        && Moved(s, t, id, Claiming(s.events[id].status.total, s.events[id].status.effective, 0), s.events[id].info.drawTime, s.events[id].info.endTime)
      else t == s
  {
    if id in s.events {
      EventFacts(cfg, s, id);
    }
  }

  /** Before the end a winner takes its prize out of the pot, once. */
  lemma ClaimOutcome(cfg: Config, s: State, now: nat, id: EventId, entry: Entry, transferOk: bool)
    requires Inv(cfg, s)
    ensures var t := After(cfg, s, now, Claim(id, entry, transferOk));
      if id in s.events && s.events[id].status.Claiming? && now < s.events[id].info.endTime && s.events[id].info.asset in s.supported
         && id in s.winners && entry in s.winners[id] && transferOk
      then
        var Claiming(total, effective, claimed) := s.events[id].status;
        && t == s.(events := s.events[id := Event(s.events[id].info, Claiming(total, effective, claimed + 1))],
                   winners := s.winners[id := s.winners[id] - {entry}], held := t.held)
        && Released(s, t, s.events[id].info, 1)
      else t == s
  {
    if id in s.events && s.events[id].status.Claiming? && entry in WinnersOf(s, id) {
      EventFacts(cfg, s, id);
      var Claiming(total, effective, claimed) := s.events[id].status;
      AirdropDraw.ClaimCoherent(s.events[id].info, RegsOf(s, id), WinnersOf(s, id), EntropyOf(s, id), total, effective, claimed, entry);
      HeldAfterClaim(cfg, s, id, total, effective, claimed);
    }
  }

  lemma CloseClaimingOutcome(cfg: Config, s: State, now: nat, id: EventId)
    requires Inv(cfg, s)
    ensures var t := After(cfg, s, now, CloseClaiming(id));
      if id in s.events && s.events[id].status.Claiming? && s.events[id].info.endTime <= now
      then
        var Claiming(total, effective, claimed) := s.events[id].status;
        && t == s.(events := t.events, schedule := t.schedule)
        && Moved(s, t, id, ClearingRegistrations(total, effective, claimed, 0), s.events[id].info.endTime, s.events[id].info.endTime)
      else t == s
  {
    if id in s.events && s.events[id].status.Claiming? {
      EntryStands(cfg, s, id, s.events[id].info.endTime);
    }
  }

  // ---------------------------------------------------------------------------------------------
  // Clearing and finalizing
  // ---------------------------------------------------------------------------------------------

  /** As many registrations as the limit allows go; with the last the winners are next. */
  lemma CleanRegistrationsOutcome(cfg: Config, s: State, now: nat, id: EventId, doomed: set<Slot>)
    requires Inv(cfg, s)
    ensures var t := After(cfg, s, now, CleanRegistrations(id, doomed));
      var regs := if id in s.registrations then s.registrations[id] else map[];
      if id in s.events && s.events[id].status.ClearingRegistrations? && doomed <= regs.Keys && |doomed| == Min(cfg.clearLimit, |regs|)
      then
        var ClearingRegistrations(total, effective, claimed, cleaned) := s.events[id].status;
        t == s.(registrations := s.registrations[id := regs - doomed],
                events := s.events[id := Event(s.events[id].info,
                  if doomed == regs.Keys then ClearingWinners(total, effective, claimed, 0)
                  else ClearingRegistrations(total, effective, claimed, cleaned + |doomed|))])
      else t == s
  {
    Remainder(RegsOf(s, id), doomed);
    if id in s.events && s.events[id].status.ClearingRegistrations? {
      RegistrationsRoom(cfg, s, id);
    }
  }

  lemma Remainder<K, V>(m: map<K, V>, gone: set<K>)
    ensures |m.Keys| == |m|
    ensures gone <= m.Keys ==> |gone| <= |m| && (m - gone == map[] <==> gone == m.Keys)
  {
    if gone <= m.Keys {
      SubsetCount(gone, m.Keys);
      var rest := m - gone;
      assert rest.Keys == m.Keys - gone;
      assert rest == map[] <==> rest.Keys == {};
      if m.Keys - gone == {} {
        forall k | k in m.Keys
          ensures k in gone
        {
          assert k !in m.Keys - gone;
        }
      }
    }
  }

  /** The cleaned counter never reaches the end of its word. */
  lemma RegistrationsRoom(cfg: Config, s: State, id: EventId)
    requires Inv(cfg, s) && id in s.events && s.events[id].status.ClearingRegistrations?
    ensures s.events[id].status.cleaned + |RegsOf(s, id)| <= U32_MAX
  {
    EventFacts(cfg, s, id);
  }

  lemma WinnersRoom(cfg: Config, s: State, id: EventId)
    requires Inv(cfg, s) && id in s.events && s.events[id].status.ClearingWinners?
    ensures s.events[id].status.cleaned + |WinnersOf(s, id)| <= U32_MAX
  {
    EventFacts(cfg, s, id);
  }

  /** Likewise for winners; with the last the event can be finalized. */
  lemma CleanWinnersOutcome(cfg: Config, s: State, now: nat, id: EventId, gone: set<Entry>)
    requires Inv(cfg, s)
    ensures var t := After(cfg, s, now, CleanWinners(id, gone));
      var winners := if id in s.winners then s.winners[id] else map[];
      if id in s.events && s.events[id].status.ClearingWinners? && gone <= winners.Keys && |gone| == Min(cfg.clearLimit, |winners|)
      then
        var ClearingWinners(total, effective, claimed, cleaned) := s.events[id].status;
        t == s.(winners := s.winners[id := winners - gone],
                events := s.events[id := Event(s.events[id].info,
                  if gone == winners.Keys then Finalizing(effective, claimed)
                  else ClearingWinners(total, effective, claimed, cleaned + |gone|))])
      else t == s
  {
    Remainder(WinnersOf(s, id), gone);
    if id in s.events && s.events[id].status.ClearingWinners? {
      WinnersRoom(cfg, s, id);
    }
  }

  /** The unclaimed prizes go back, and the event leaves every storage. */
  lemma FinalizeOutcome(cfg: Config, s: State, now: nat, id: EventId)
    requires Inv(cfg, s)
    ensures var t := After(cfg, s, now, Finalize(id));
      if id in s.events && s.events[id].status.Finalizing?
      then
        && t == s.(events := t.events, schedule := t.schedule, held := t.held, entropy := s.entropy - {id})
        && Gone(s, t, id, s.events[id].info.endTime)
        && Released(s, t, s.events[id].info, s.events[id].status.effective - s.events[id].status.claimed)
      else t == s
  {
    if id in s.events && s.events[id].status.Finalizing? {
      FinalRelease(cfg, s, id);
      var u := s.(held := Release(cfg, s.held, s.events[id].info, SatSub(s.events[id].status.effective, s.events[id].status.claimed)),
                  entropy := s.entropy - {id});
      DropGoes(s, u, id, s.events[id].info.endTime);
    }
  }

  lemma FinalRelease(cfg: Config, s: State, id: EventId)
    requires Inv(cfg, s) && id in s.events && s.events[id].status.Finalizing?
    ensures var info, count := s.events[id].info, s.events[id].status.effective - s.events[id].status.claimed;
      count >= 0 && forall a :: Balance(Release(cfg, s.held, info, count), a) == Balance(s.held, a) - (if a == info.asset then info.amount * count else 0)
  {
    EventFacts(cfg, s, id);
    ReleaseIsFull(cfg, s.held, s.events, id, s.events[id].status.effective - s.events[id].status.claimed);
  }
}
