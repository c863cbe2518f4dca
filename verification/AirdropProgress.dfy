/** Termination: worker ticks use up a bound computed from the event's counts and the batch limits. */
module AirdropProgress {
  import opened Prelude
  import opened Airdrop
  import opened AirdropInvariant
  import opened AirdropDraw
  import opened AirdropRuns

  // ---------------------------------------------------------------------------------------------
  // Counting batches
  // ---------------------------------------------------------------------------------------------

  /** Calls needed to process `n` items, at most `limit` per call. */
  function Batches(n: nat, limit: nat): nat
    requires limit > 0
  {
    if n == 0 then 0 else 1 + Batches(n - Min(n, limit), limit)
  }

  /** Calls of a clearing phase: an empty prefix still takes the call that finds it empty. */
  function Drain(n: nat, limit: nat): nat
    requires limit > 0
  {
    Max(1, Batches(n, limit))
  }

  lemma {:induction false} BatchesMonotone(a: nat, b: nat, limit: nat)
    requires limit > 0 && a <= b
    ensures Batches(a, limit) <= Batches(b, limit)
  {
    if a > 0 {
      BatchesMonotone(a - Min(a, limit), b - Min(b, limit), limit);
    }
  }

  /** One item more takes at most one call more. */
  lemma {:induction false} BatchesOneMore(n: nat, limit: nat)
    requires limit > 0
    ensures Batches(n + 1, limit) <= Batches(n, limit) + 1
  {
    if n >= limit {
      BatchesOneMore(n - limit, limit);
    } else {
      assert n + 1 - Min(n + 1, limit) == 0;
    }
  }

  /** Up to one item more, at most one call more. */
  lemma BatchesNear(a: nat, b: nat, limit: nat)
    requires limit > 0 && a <= b + 1
    ensures Batches(a, limit) <= Batches(b, limit) + 1
    ensures Drain(a, limit) <= Drain(b, limit) + 1
  {
    BatchesOneMore(b, limit);
    BatchesMonotone(a, b + 1, limit);
  }

  lemma DrainMonotone(a: nat, b: nat, limit: nat)
    requires limit > 0 && a <= b
    ensures Drain(a, limit) <= Drain(b, limit)
  {
    BatchesMonotone(a, b, limit);
  }

  lemma DrainStep(n: nat, limit: nat)
    requires 0 < limit < n
    ensures Drain(n - limit, limit) + 1 == Drain(n, limit)
  {
  }

  // ---------------------------------------------------------------------------------------------
  // The bound
  // ---------------------------------------------------------------------------------------------

  /** Ticks from the start of a draw of `effective` out of `total`, with `added` drawn already. */
  function FromDraw(cfg: Config, total: nat, effective: nat, added: nat): nat
    requires Integrity(cfg)
  {
    Batches(SatSub(effective, added), cfg.drawLimit) + 3 + Drain(total, cfg.clearLimit) + Drain(effective, cfg.clearLimit)
  }

  /** Ticks an event needs at most, from its status and the number of its registrations and winners. */
  function Bound(cfg: Config, e: Event, registrations: nat, winners: nat): nat
    requires Integrity(cfg)
  {
    match e.status
    case Scheduled => 4
    case Registering(total) => if total == 0 then 3 else 1 + FromDraw(cfg, total, EffectiveWinners(e.info, total), 0)
    case DrawWinners(total, effective, added, _) => FromDraw(cfg, total, effective, added)
    case Claiming(_, _, _) => 2 + Drain(registrations, cfg.clearLimit) + Drain(winners, cfg.clearLimit)
    case ClearingRegistrations(_, _, _, _) => 1 + Drain(registrations, cfg.clearLimit) + Drain(winners, cfg.clearLimit)
    case ClearingWinners(_, _, _, _) => 1 + Drain(winners, cfg.clearLimit)
    case Finalizing(_, _) => 1
  }

  function TicksLeft(cfg: Config, s: State, id: EventId): nat
    requires Integrity(cfg) && id in s.events
  {
    Bound(cfg, s.events[id], |RegsOf(s, id)|, |WinnersOf(s, id)|)
  }

  /** The event is gone, or at least `k` ticks closer to it. */
  ghost predicate Closer(cfg: Config, s: State, t: State, id: EventId, k: nat)
    requires Integrity(cfg) && id in s.events
  {
    id !in t.events || TicksLeft(cfg, t, id) + k <= TicksLeft(cfg, s, id)
  }

  /** The lifecycle calls the offchain worker submits. */
  datatype Kind = Start | CloseRegs | Draw | CloseDraw | CloseClaims | CleanRegs | CleanWins | Finish

  /** The worker's choice for an event in this status. */
  function Choose(status: Status): Kind {
    match status
    case Scheduled => Start
    case Registering(_) => CloseRegs
    case DrawWinners(_, effective, added, _) => if added == effective then CloseDraw else Draw
    case Claiming(_, _, _) => CloseClaims
    case ClearingRegistrations(_, _, _, _) => CleanRegs
    case ClearingWinners(_, _, _, _) => CleanWins
    case Finalizing(_, _) => Finish
  }

  /** `call` is the dispatch of a submission of this kind for the event. */
  predicate Fits(kind: Kind, id: EventId, call: Call) {
    match kind
    case Start => call == StartRegistration(id)
    case CloseRegs => call.CloseRegistration? && call.id == id
    case Draw => call == DrawBatch(id)
    case CloseDraw => call == CloseDrawing(id)
    case CloseClaims => call == CloseClaiming(id)
    case CleanRegs => call.CleanRegistrations? && call.id == id
    case CleanWins => call.CleanWinners? && call.id == id
    case Finish => call == Finalize(id)
  }

  /** What the environment supplies with it: randomness, and the entries `clear_prefix` removes. */
  predicate Supplied(cfg: Config, s: State, call: Call) {
    match call
    case CloseRegistration(_, randomness) => randomness.Some?
    case CleanRegistrations(id, doomed) => Clears(RegsOf(s, id).Keys, cfg.clearLimit, doomed)
    case CleanWinners(id, gone) => Clears(WinnersOf(s, id).Keys, cfg.clearLimit, gone)
    case _ => true
  }

  /** The step is a worker tick for the event, past the event's end. */
  predicate Tick(cfg: Config, s: State, id: EventId, step: (nat, Call)) {
    && id in s.events && s.events[id].info.endTime <= step.0
    && Fits(Choose(s.events[id].status), id, step.1) && Supplied(cfg, s, step.1)
  }

  // ---------------------------------------------------------------------------------------------
  // Call by call
  // ---------------------------------------------------------------------------------------------

  lemma DrawingCounts(cfg: Config, s: State, id: EventId)
    requires Inv(cfg, s) && id in s.events && s.events[id].status.DrawWinners?
    ensures |RegsOf(s, id)| == s.events[id].status.total && |WinnersOf(s, id)| <= s.events[id].status.added <= s.events[id].status.effective
  {
    EventFacts(cfg, s, id);
    WinnersBounded(s.events[id].info, s.events[id].status, RegsOf(s, id), WinnersOf(s, id), EntropyOf(s, id));
  }

  lemma StopCloser(cfg: Config, s: State, id: EventId, total: nat, effective: nat, claimed: nat)
    requires Integrity(cfg) && Inv(cfg, s) && id in s.events
    requires s.events[id].status == Claiming(total, effective, claimed)
          || (s.events[id].status.DrawWinners? && s.events[id].status.total == total && s.events[id].status.effective == effective)
    ensures Closer(cfg, s, Transition(s, id, ClearingRegistrations(total, effective, claimed, 0)), id, 1)
  {
    if s.events[id].status.DrawWinners? {
      DrawingCounts(cfg, s, id);
      DrainMonotone(|WinnersOf(s, id)|, effective, cfg.clearLimit);
    }
    StopTicks(cfg, s, id, ClearingRegistrations(total, effective, claimed, 0));
  }

  lemma StopTicks(cfg: Config, s: State, id: EventId, next: Status)
    requires Integrity(cfg) && id in s.events && next.ClearingRegistrations?
    ensures TicksLeft(cfg, Transition(s, id, next), id)
         == 1 + Drain(|RegsOf(s, id)|, cfg.clearLimit) + Drain(|WinnersOf(s, id)|, cfg.clearLimit)
  {
    var t := Transition(s, id, next);
    assert RegsOf(t, id) == RegsOf(s, id) && WinnersOf(t, id) == WinnersOf(s, id);
  }

  lemma CancelCloser(cfg: Config, s: State, id: EventId)
    requires Integrity(cfg) && Inv(cfg, s) && id in s.events
    ensures Closer(cfg, s, CancelSpec(cfg, s, id).value, id, 0)
  {
    match s.events[id].status {
      case Scheduled =>
      case Registering(_) => CancelRegisteringCloser(cfg, s, id);
      case DrawWinners(total, effective, _, _) => StopCloser(cfg, s, id, total, effective, 0);
      case Claiming(total, effective, claimed) => StopCloser(cfg, s, id, total, effective, claimed);
      case _ =>
    }
  }

  lemma CancelRegisteringCloser(cfg: Config, s: State, id: EventId)
    requires Integrity(cfg) && Inv(cfg, s) && id in s.events && s.events[id].status.Registering?
    ensures Closer(cfg, s, CancelSpec(cfg, s, id).value, id, 0)
  {
    assert Local(cfg, s, id);
    var t := CancelSpec(cfg, s, id).value;
    assert RegsOf(t, id) == RegsOf(s, id) && WinnersOf(t, id) == WinnersOf(s, id);
    assert Drain(0, cfg.clearLimit) == 1;
  }

  lemma ClaimCloser(cfg: Config, s: State, now: nat, id: EventId, entry: Entry, ok: bool)
    requires Integrity(cfg) && ClaimSpec(s, now, id, entry, ok).Some?
    ensures Closer(cfg, s, ClaimSpec(s, now, id, entry, ok).value, id, 0)
  {
    var w := WinnersOf(s, id);
    assert (w - {entry}).Keys == w.Keys - {entry};
    DrainMonotone(|w - {entry}|, |w|, cfg.clearLimit);
  }

  lemma CloseRegistrationCloser(cfg: Config, s: State, now: nat, id: EventId, randomness: Option<Slot>)
    requires Integrity(cfg) && Inv(cfg, s) && CloseRegistrationSpec(cfg, s, now, id, randomness).Some?
    ensures Closer(cfg, s, CloseRegistrationSpec(cfg, s, now, id, randomness).value, id, if randomness.Some? then 1 else 0)
  {
  }

  lemma DrawCloser(cfg: Config, s: State, id: EventId)
    requires Integrity(cfg) && Inv(cfg, s) && DrawSpec(cfg, s, id).Some?
    ensures Closer(cfg, s, DrawSpec(cfg, s, id).value, id, if s.events[id].status.added == s.events[id].status.effective then 0 else 1)
  {
    var batch := BatchIsFull(cfg, s, id);
    FullBatchCloser(cfg, s, id, batch);
  }

  lemma FullBatchCloser(cfg: Config, s: State, id: EventId, batch: seq<Slot>)
    requires Integrity(cfg) && id in s.events && s.events[id].status.DrawWinners? && FullBatch(cfg, s, id, batch)
    ensures Closer(cfg, s, DrawSpec(cfg, s, id).value, id, if s.events[id].status.added == s.events[id].status.effective then 0 else 1)
  {
    DrawTicks(cfg, s, id, batch);
    DrawCloserBy(cfg, s, DrawSpec(cfg, s, id).value, id, |batch|);
  }

  lemma DrawCloserBy(cfg: Config, s: State, t: State, id: EventId, k: nat)
    requires Integrity(cfg) && id in s.events && s.events[id].status.DrawWinners? && id in t.events
    requires var status := s.events[id].status;
      && status.added <= status.effective && k == Min(status.effective - status.added, cfg.drawLimit)
      && TicksLeft(cfg, t, id) == FromDraw(cfg, status.total, status.effective, status.added + k)
    ensures Closer(cfg, s, t, id, if s.events[id].status.added == s.events[id].status.effective then 0 else 1)
  {
    var status := s.events[id].status;
    DrawBound(cfg, status.total, status.effective, status.added, k);
  }

  ghost predicate FullBatch(cfg: Config, s: State, id: EventId, batch: seq<Slot>)
    requires id in s.events && s.events[id].status.DrawWinners?
  {
    var status := s.events[id].status;
    && batch == NextSlots(RegsOf(s, id), status.from, Min(SatSub(status.effective, status.added), cfg.drawLimit))
    && status.added <= status.effective <= MAX_WINNERS && |batch| == Min(status.effective - status.added, cfg.drawLimit)
  }

  lemma DrawTicks(cfg: Config, s: State, id: EventId, batch: seq<Slot>)
    requires Integrity(cfg) && id in s.events && s.events[id].status.DrawWinners?
    requires batch == NextSlots(RegsOf(s, id), s.events[id].status.from,
                                Min(SatSub(s.events[id].status.effective, s.events[id].status.added), cfg.drawLimit))
    requires s.events[id].status.added + |batch| <= U32_MAX
    ensures var status, t := s.events[id].status, DrawSpec(cfg, s, id).value;
      id in t.events && TicksLeft(cfg, t, id) == FromDraw(cfg, status.total, status.effective, status.added + |batch|)
  {
    DrawnStatus(cfg, s, id, batch);
    DrawingTicks(cfg, DrawSpec(cfg, s, id).value, id);
  }

  lemma DrawnStatus(cfg: Config, s: State, id: EventId, batch: seq<Slot>)
    requires id in s.events && s.events[id].status.DrawWinners?
    requires batch == NextSlots(RegsOf(s, id), s.events[id].status.from,
                                Min(SatSub(s.events[id].status.effective, s.events[id].status.added), cfg.drawLimit))
    ensures var t := DrawSpec(cfg, s, id).value; id in t.events && t.events[id].status == AfterBatch(s.events[id].status, batch)
  {
  }

  lemma DrawingTicks(cfg: Config, t: State, id: EventId)
    requires Integrity(cfg) && id in t.events && t.events[id].status.DrawWinners?
    ensures var status := t.events[id].status; TicksLeft(cfg, t, id) == FromDraw(cfg, status.total, status.effective, status.added)
  {
  }

  /** A batch is as long as the limit and the remaining winners allow. */
  lemma BatchIsFull(cfg: Config, s: State, id: EventId) returns (batch: seq<Slot>)
    requires Inv(cfg, s) && id in s.events && s.events[id].status.DrawWinners?
    ensures FullBatch(cfg, s, id, batch)
  {
    var status := s.events[id].status;
    batch := NextSlots(RegsOf(s, id), status.from, Min(SatSub(status.effective, status.added), cfg.drawLimit));
    DrawReady(cfg, s, id, status, batch);
  }

  lemma DrawBound(cfg: Config, total: nat, effective: nat, added: nat, k: nat)
    requires Integrity(cfg) && added <= effective && k == Min(effective - added, cfg.drawLimit)
    ensures FromDraw(cfg, total, effective, added + k) + (if added == effective then 0 else 1) == FromDraw(cfg, total, effective, added)
  {
  }

  lemma CloseDrawingCloser(cfg: Config, s: State, id: EventId)
    requires Integrity(cfg) && Inv(cfg, s) && CloseDrawingSpec(s, id).Some?
    ensures Closer(cfg, s, CloseDrawingSpec(s, id).value, id, 1)
  {
    DrawingCounts(cfg, s, id);
    DrainMonotone(|WinnersOf(s, id)|, s.events[id].status.effective, cfg.clearLimit);
  }

  /** One clearing call: with `rest` left out of `n`, either the phase is over or it needs one call less. */
  lemma ClearStep(n: nat, rest: nat, limit: nat)
    requires limit > 0 && rest == n - Min(limit, n)
    ensures rest > 0 ==> Drain(rest, limit) + 1 == Drain(n, limit)
  {
    if n > limit {
      DrainStep(n, limit);
    }
  }

  lemma CleanRegistrationsWrites(cfg: Config, s: State, id: EventId, doomed: set<Slot>, t: State)
    requires CleanRegistrationsSpec(cfg, s, id, doomed) == Some(t)
    ensures id in t.events && RegsOf(t, id) == RegsOf(s, id) - doomed && WinnersOf(t, id) == WinnersOf(s, id)
    ensures if RegsOf(t, id) == map[] then t.events[id].status.ClearingWinners? else t.events[id].status.ClearingRegistrations?
  {
  }

  lemma CleanRegistrationsCloser(cfg: Config, s: State, id: EventId, doomed: set<Slot>)
    requires Integrity(cfg) && CleanRegistrationsSpec(cfg, s, id, doomed).Some?
    ensures Closer(cfg, s, CleanRegistrationsSpec(cfg, s, id, doomed).value, id, 1)
  {
    var t := CleanRegistrationsSpec(cfg, s, id, doomed).value;
    CleanRegistrationsWrites(cfg, s, id, doomed, t);
    ClearCounts(RegsOf(s, id), cfg.clearLimit, doomed);
    ClearStep(|RegsOf(s, id)|, |RegsOf(t, id)|, cfg.clearLimit);
  }

  lemma CleanWinnersWrites(cfg: Config, s: State, id: EventId, gone: set<Entry>, t: State)
    requires CleanWinnersSpec(cfg, s, id, gone) == Some(t)
    ensures id in t.events && WinnersOf(t, id) == WinnersOf(s, id) - gone
    ensures if WinnersOf(t, id) == map[] then t.events[id].status.Finalizing? else t.events[id].status.ClearingWinners?
  {
  }

  lemma CleanWinnersCloser(cfg: Config, s: State, id: EventId, gone: set<Entry>)
    requires Integrity(cfg) && CleanWinnersSpec(cfg, s, id, gone).Some?
    ensures Closer(cfg, s, CleanWinnersSpec(cfg, s, id, gone).value, id, 1)
  {
    var t := CleanWinnersSpec(cfg, s, id, gone).value;
    CleanWinnersWrites(cfg, s, id, gone, t);
    ClearCounts(WinnersOf(s, id), cfg.clearLimit, gone);
    ClearStep(|WinnersOf(s, id)|, |WinnersOf(t, id)|, cfg.clearLimit);
  }

  /** A participant more raises the number of winners by at most one. */
  lemma EffectiveGrows(info: Info, total: nat)
    requires info.winnerCap <= PERMILL_ONE
    ensures EffectiveWinners(info, total + 1) <= EffectiveWinners(info, total) + 1
  {
    ShareGrows(info.winnerCap, total);
  }

  lemma ShareGrows(cap: nat, total: nat)
    requires cap <= PERMILL_ONE
    ensures 0 <= cap * total / PERMILL_ONE
    ensures cap * (total + 1) / PERMILL_ONE <= cap * total / PERMILL_ONE + 1
  {
    var n := cap * total;
    assert cap * (total + 1) == n + cap;
    assert (n + cap) / PERMILL_ONE <= (n + PERMILL_ONE) / PERMILL_ONE;
    assert (n + PERMILL_ONE) / PERMILL_ONE == n / PERMILL_ONE + 1;
  }

  /** Ticks one registration can add. */
  const REGISTRATION_TICKS: nat := 4

  /** While registering, the bound depends on the participants only. */
  lemma RegisteringBoundGrows(cfg: Config, info: Info, total: nat, r1: nat, w1: nat, r2: nat, w2: nat)
    requires Integrity(cfg) && info.winnerCap <= PERMILL_ONE
    ensures Bound(cfg, Event(info, Registering(total + 1)), r2, w2)
         <= Bound(cfg, Event(info, Registering(total)), r1, w1) + REGISTRATION_TICKS
  {
    var few, many := EffectiveWinners(info, total), EffectiveWinners(info, total + 1);
    EffectiveGrows(info, total);
    FromDrawGrows(cfg, total, few, many);
    if total == 0 {
      FromFirst(cfg, many);
    }
  }

  lemma FromDrawGrows(cfg: Config, total: nat, few: nat, many: nat)
    requires Integrity(cfg) && many <= few + 1
    ensures FromDraw(cfg, total + 1, many, 0) <= FromDraw(cfg, total, few, 0) + 3
  {
    BatchesNear(many, few, cfg.drawLimit);
    BatchesNear(total + 1, total, cfg.clearLimit);
    BatchesNear(many, few, cfg.clearLimit);
  }

  /** With one participant there is at most one winner, hence one call per phase. */
  lemma FromFirst(cfg: Config, many: nat)
    requires Integrity(cfg) && many <= 1
    ensures FromDraw(cfg, 1, many, 0) <= 6
  {
    OneBatch(cfg.drawLimit);
    OneBatch(cfg.clearLimit);
    assert many == 0 || many == 1;
  }

  lemma OneBatch(limit: nat)
    requires limit > 0
    ensures Batches(0, limit) == 0 && Batches(1, limit) == 1
  {
  }

  lemma RegisterStatus(s: State, id: EventId, slot: Slot, entry: Entry)
    requires RegisterSpec(s, id, slot, entry).Some?
    ensures var t := RegisterSpec(s, id, slot, entry).value;
      id in t.events && t.events[id] == Event(s.events[id].info, Registering(s.events[id].status.total + 1))
  {
  }

  lemma CapOk(cfg: Config, s: State, id: EventId)
    requires Inv(cfg, s) && id in s.events
    ensures s.events[id].info.winnerCap <= PERMILL_ONE
  {
    assert Local(cfg, s, id);
  }

  lemma RegisterCloser(cfg: Config, s: State, id: EventId, slot: Slot, entry: Entry)
    requires Integrity(cfg) && Inv(cfg, s) && RegisterSpec(s, id, slot, entry).Some?
    ensures var t := RegisterSpec(s, id, slot, entry).value;
      id in t.events && TicksLeft(cfg, t, id) <= TicksLeft(cfg, s, id) + REGISTRATION_TICKS
  {
    CapOk(cfg, s, id);
    RegisterStatus(s, id, slot, entry);
    var t := RegisterSpec(s, id, slot, entry).value;
    RegisteringBoundGrows(cfg, s.events[id].info, s.events[id].status.total,
                          |RegsOf(s, id)|, |WinnersOf(s, id)|, |RegsOf(t, id)|, |WinnersOf(t, id)|);
  }

  /** Whether the call names the event. */
  predicate Names(call: Call, id: EventId) {
    match call
    case EnableAsset(_, _) => false
    case DisableAsset(_, _) => false
    case _ => call.id == id
  }

  lemma SetStatusElsewhere(s: State, u: State, other: EventId, status: Status, id: EventId)
    requires other in s.events && OnlyEvent(s, u, other) && id != other
    ensures SameEvent(s, SetStatus(u, other, status), id)
  {
    var t := SetStatus(u, other, status);
    assert RegsOf(t, id) == RegsOf(s, id) && WinnersOf(t, id) == WinnersOf(s, id) && EntropyOf(t, id) == EntropyOf(s, id);
  }

  lemma TransitionElsewhere(s: State, u: State, other: EventId, status: Status, id: EventId)
    requires other in s.events && OnlyEvent(s, u, other) && id != other
    ensures SameEvent(s, Transition(u, other, status), id)
  {
    var t := Transition(u, other, status);
    assert RegsOf(t, id) == RegsOf(s, id) && WinnersOf(t, id) == WinnersOf(s, id) && EntropyOf(t, id) == EntropyOf(s, id);
  }

  lemma RefundElsewhere(cfg: Config, s: State, other: EventId, id: EventId)
    requires id != other && other in s.events
    ensures SameEvent(s, RefundAndDrop(cfg, s, other), id)
  {
  }

  lemma EntropyElsewhere(s: State, other: EventId, held: map<AssetId, nat>, target: Slot, status: Status, id: EventId)
    requires id != other && other in s.events
    ensures SameEvent(s, Transition(s.(held := held, entropy := s.entropy[other := target]), other, status), id)
  {
    var u := s.(held := held, entropy := s.entropy[other := target]);
    EntropyWrite(s, other, held, target, u);
    TransitionElsewhere(s, u, other, status, id);
  }

  lemma ClosingElsewhere(cfg: Config, s: State, now: nat, other: EventId, randomness: Option<Slot>, id: EventId)
    requires id != other && CloseRegistrationSpec(cfg, s, now, other, randomness).Some?
    ensures SameEvent(s, CloseRegistrationSpec(cfg, s, now, other, randomness).value, id)
  {
    var t := CloseRegistrationSpec(cfg, s, now, other, randomness).value;
    if s.events[other].status.total == 0 {
      RefundElsewhere(cfg, s, other, id);
    } else if randomness.Some? {
      EntropyElsewhere(s, other, t.held, randomness.value, t.events[other].status, id);
    }
  }

  lemma DrawElsewhere(cfg: Config, s: State, other: EventId, id: EventId)
    requires id != other && DrawSpec(cfg, s, other).Some?
    ensures SameEvent(s, DrawSpec(cfg, s, other).value, id)
  {
    var t := DrawSpec(cfg, s, other).value;
    WinnersElsewhere(s, other, WinnersOf(t, other), t.events[other].status, id);
  }

  lemma WinnersElsewhere(s: State, other: EventId, w: map<Entry, Slot>, status: Status, id: EventId)
    requires id != other && other in s.events
    ensures SameEvent(s, SetStatus(s.(winners := s.winners[other := w]), other, status), id)
  {
    var u := s.(winners := s.winners[other := w]);
    WinnersWrite(s, other, s.held, w, u);
    SetStatusElsewhere(s, u, other, status, id);
  }

  lemma CleanRegistrationsElsewhere(cfg: Config, s: State, other: EventId, doomed: set<Slot>, id: EventId)
    requires id != other && CleanRegistrationsSpec(cfg, s, other, doomed).Some?
    ensures SameEvent(s, CleanRegistrationsSpec(cfg, s, other, doomed).value, id)
  {
    var u := s.(registrations := s.registrations[other := RegsOf(s, other) - doomed]);
    SetStatusElsewhere(s, u, other, AfterRegistrations(s.events[other].status, RegsOf(s, other) - doomed, |doomed|), id);
  }

  lemma CleanWinnersElsewhere(cfg: Config, s: State, other: EventId, gone: set<Entry>, id: EventId)
    requires id != other && CleanWinnersSpec(cfg, s, other, gone).Some?
    ensures SameEvent(s, CleanWinnersSpec(cfg, s, other, gone).value, id)
  {
    var u := s.(winners := s.winners[other := WinnersOf(s, other) - gone]);
    SetStatusElsewhere(s, u, other, AfterWinners(s.events[other].status, WinnersOf(s, other) - gone, |gone|), id);
  }

  lemma CancelElsewhere(cfg: Config, s: State, other: EventId, id: EventId)
    requires id != other
    ensures SameEvent(s, CancelSpec(cfg, s, other).value, id)
  {
    if other in s.events {
      var info := s.events[other].info;
      match s.events[other].status {
        case Scheduled => RefundElsewhere(cfg, s, other, id);
        case Registering(total) =>
          TransitionElsewhere(s, s.(held := Release(cfg, s.held, info, info.maxWinners)), other, ClearingRegistrations(total, 0, 0, 0), id);
        case DrawWinners(total, effective, _, _) =>
          TransitionElsewhere(s, s, other, ClearingRegistrations(total, effective, 0, 0), id);
        case Claiming(total, effective, claimed) =>
          TransitionElsewhere(s, s, other, ClearingRegistrations(total, effective, claimed, 0), id);
        case _ =>
      }
    }
  }

  lemma LifecycleElsewhere(cfg: Config, s: State, now: nat, call: Call, id: EventId)
    requires !Names(call, id) && Outcome(cfg, s, now, call).Some?
    requires call.StartRegistration? || call.CloseDrawing? || call.CloseClaiming? || call.Finalize? || call.RemoveScheduled?
    ensures SameEvent(s, Outcome(cfg, s, now, call).value, id)
  {
  }

  lemma RegisterElsewhere(s: State, other: EventId, slot: Slot, entry: Entry, id: EventId)
    requires id != other && RegisterSpec(s, other, slot, entry).Some?
    ensures SameEvent(s, RegisterSpec(s, other, slot, entry).value, id)
  {
    var regs := RegsOf(s, other)[slot := entry];
    var u := s.(registrations := s.registrations[other := regs]);
    RegistrationsWrite(s, other, regs, u);
    SetStatusElsewhere(s, u, other, Registering(s.events[other].status.total + 1), id);
  }

  lemma ClaimElsewhere(s: State, now: nat, other: EventId, entry: Entry, ok: bool, id: EventId)
    requires id != other && ClaimSpec(s, now, other, entry, ok).Some?
    ensures SameEvent(s, ClaimSpec(s, now, other, entry, ok).value, id)
  {
    var t := ClaimSpec(s, now, other, entry, ok).value;
    var u := s.(held := t.held, winners := s.winners[other := WinnersOf(s, other) - {entry}]);
    WinnersWrite(s, other, t.held, WinnersOf(s, other) - {entry}, u);
    SetStatusElsewhere(s, u, other, t.events[other].status, id);
  }

  lemma ScheduleElsewhere(cfg: Config, s: State, other: EventId, info: Info, ok: bool, id: EventId)
    requires id != other && ScheduleSpec(cfg, s, other, info, ok).Some?
    ensures SameEvent(s, ScheduleSpec(cfg, s, other, info, ok).value, id)
  {
  }

  /** A call that names another event leaves this one alone. */
  lemma OthersLeaveAlone(cfg: Config, s: State, now: nat, call: Call, id: EventId)
    requires !Names(call, id) && Outcome(cfg, s, now, call).Some?
    ensures SameEvent(s, Outcome(cfg, s, now, call).value, id)
  {
    match call {
      case Cancel(other) => CancelElsewhere(cfg, s, other, id);
      case CloseRegistration(other, randomness) => ClosingElsewhere(cfg, s, now, other, randomness, id);
      case DrawBatch(other) => DrawElsewhere(cfg, s, other, id);
      case CleanRegistrations(other, doomed) => CleanRegistrationsElsewhere(cfg, s, other, doomed, id);
      case CleanWinners(other, gone) => CleanWinnersElsewhere(cfg, s, other, gone, id);
      case StartRegistration(_) => LifecycleElsewhere(cfg, s, now, call, id);
      case CloseDrawing(_) => LifecycleElsewhere(cfg, s, now, call, id);
      case CloseClaiming(_) => LifecycleElsewhere(cfg, s, now, call, id);
      case Finalize(_) => LifecycleElsewhere(cfg, s, now, call, id);
      case RemoveScheduled(_) => LifecycleElsewhere(cfg, s, now, call, id);
      case Schedule(other, info, ok) => ScheduleElsewhere(cfg, s, other, info, ok, id);
      case Register(other, slot, entry) => RegisterElsewhere(s, other, slot, entry, id);
      case Claim(other, entry, ok) => ClaimElsewhere(s, now, other, entry, ok, id);
      case EnableAsset(_, _) =>
      case DisableAsset(_, _) =>
    }
  }

  /** No call but a registration takes the event further from its end, and a tick takes it closer. */
  lemma CallCloser(cfg: Config, s: State, now: nat, call: Call, id: EventId)
    requires Integrity(cfg) && Inv(cfg, s) && id in s.events && Names(call, id) && !call.Register?
    ensures Closer(cfg, s, Apply(cfg, s, (now, call)), id, if Tick(cfg, s, id, (now, call)) then 1 else 0)
  {
    if Outcome(cfg, s, now, call).Some? {
      match call {
        case Schedule(_, _, _) =>
        case RemoveScheduled(_) =>
        case Cancel(_) => CancelCloser(cfg, s, id);
        case Claim(_, entry, ok) => ClaimCloser(cfg, s, now, id, entry, ok);
        case StartRegistration(_) =>
        case CloseRegistration(_, randomness) => CloseRegistrationCloser(cfg, s, now, id, randomness);
        case DrawBatch(_) => DrawCloser(cfg, s, id);
        case CloseDrawing(_) => CloseDrawingCloser(cfg, s, id);
        case CloseClaiming(_) => StopCloser(cfg, s, id, s.events[id].status.total, s.events[id].status.effective, s.events[id].status.claimed);
        case CleanRegistrations(_, doomed) => CleanRegistrationsCloser(cfg, s, id, doomed);
        case CleanWinners(_, gone) => CleanWinnersCloser(cfg, s, id, gone);
        case Finalize(_) =>
      }
    } else if Tick(cfg, s, id, (now, call)) {
      TickIsAccepted(cfg, s, now, call, id);
    }
  }

  lemma EventTimes(cfg: Config, s: State, id: EventId)
    requires Inv(cfg, s) && id in s.events
    ensures var info := s.events[id].info; info.registrationStarts < info.drawTime < info.endTime
  {
    assert Local(cfg, s, id);
  }

  /** Every call the worker picks passes its authorization check and its dispatch. */
  lemma TickIsAccepted(cfg: Config, s: State, now: nat, call: Call, id: EventId)
    requires Inv(cfg, s) && Tick(cfg, s, id, (now, call))
    ensures Outcome(cfg, s, now, call).Some?
  {
    EventTimes(cfg, s, id);
    TickOutcome(cfg, s, now, call, id);
  }

  lemma TickOutcome(cfg: Config, s: State, now: nat, call: Call, id: EventId)
    requires Tick(cfg, s, id, (now, call))
    requires var info := s.events[id].info; info.registrationStarts < info.drawTime < info.endTime
    ensures Outcome(cfg, s, now, call).Some?
  {
    match s.events[id].status {
      case Scheduled =>
      case Registering(_) =>
      case DrawWinners(_, _, _, _) =>
      case Claiming(_, _, _) =>
      case ClearingRegistrations(_, _, _, _) =>
      case ClearingWinners(_, _, _, _) =>
      case Finalizing(_, _) =>
    }
  }

  // ---------------------------------------------------------------------------------------------
  // Runs
  // ---------------------------------------------------------------------------------------------

  /** Ticks the event receives in a run. */
  ghost function TickCount(cfg: Config, s: State, id: EventId, steps: seq<(nat, Call)>): nat
    decreases |steps|
  {
    if steps == [] then 0
    else (if Tick(cfg, s, id, steps[0]) then 1 else 0) + TickCount(cfg, Apply(cfg, s, steps[0]), id, steps[1..])
  }

  predicate RegistersFor(id: EventId, call: Call) {
    call.Register? && call.id == id
  }

  /** The registration takes effect. */
  predicate Registers(cfg: Config, s: State, id: EventId, step: (nat, Call)) {
    RegistersFor(id, step.1) && Outcome(cfg, s, step.0, step.1).Some?
  }

  /** Registrations for the event that take effect in the run. */
  ghost function RegisterCount(cfg: Config, s: State, id: EventId, steps: seq<(nat, Call)>): nat
    decreases |steps|
  {
    if steps == [] then 0
    else (if Registers(cfg, s, id, steps[0]) then 1 else 0) + RegisterCount(cfg, Apply(cfg, s, steps[0]), id, steps[1..])
  }

  ghost predicate GoneWithin(cfg: Config, s: State, id: EventId, steps: seq<(nat, Call)>) {
    exists k :: 0 <= k <= |steps| && id !in Run(cfg, s, steps[..k]).events
  }

  lemma StepCloser(cfg: Config, s: State, id: EventId, step: (nat, Call))
    requires Integrity(cfg) && Inv(cfg, s) && id in s.events && !RegistersFor(id, step.1)
    ensures Closer(cfg, s, Apply(cfg, s, step), id, if Tick(cfg, s, id, step) then 1 else 0)
  {
    if Names(step.1, id) {
      CallCloser(cfg, s, step.0, step.1, id);
    } else {
      OtherCallCloser(cfg, s, step, id);
    }
  }

  lemma OtherCallCloser(cfg: Config, s: State, step: (nat, Call), id: EventId)
    requires Integrity(cfg) && id in s.events && !Names(step.1, id)
    ensures Closer(cfg, s, Apply(cfg, s, step), id, 0) && !Tick(cfg, s, id, step)
  {
    if Outcome(cfg, s, step.0, step.1).Some? {
      OthersLeaveAlone(cfg, s, step.0, step.1, id);
    }
  }

  /** One step against the bound: registrations may add to it, ticks take from it, nothing else raises it. */
  lemma StepBudget(cfg: Config, s: State, id: EventId, step: (nat, Call))
    requires Integrity(cfg) && Inv(cfg, s) && id in s.events
    ensures var t := Apply(cfg, s, step);
      id !in t.events ||
      TicksLeft(cfg, t, id) + (if Tick(cfg, s, id, step) then 1 else 0)
        <= TicksLeft(cfg, s, id) + (if Registers(cfg, s, id, step) then REGISTRATION_TICKS else 0)
  {
    if RegistersFor(id, step.1) {
      if RegisterSpec(s, id, step.1.slot, step.1.entry).Some? {
        RegisterCloser(cfg, s, id, step.1.slot, step.1.entry);
      }
    } else {
      StepCloser(cfg, s, id, step);
    }
  }

  lemma GoneLater(cfg: Config, s: State, id: EventId, steps: seq<(nat, Call)>)
    requires steps != [] && GoneWithin(cfg, Apply(cfg, s, steps[0]), id, steps[1..])
    ensures GoneWithin(cfg, s, id, steps)
  {
    var k :| 0 <= k <= |steps[1..]| && id !in Run(cfg, Apply(cfg, s, steps[0]), steps[1..][..k]).events;
    assert steps[..k + 1][1..] == steps[1..][..k];
    assert Run(cfg, s, steps[..k + 1]) == Run(cfg, Apply(cfg, s, steps[0]), steps[1..][..k]);
  }

  /**
    Whatever happens in between, an event past its end is gone once it has had its bound of ticks,
    plus four for every registration that still takes effect.
  */
  lemma {:induction false} EventuallyRemoved(cfg: Config, s: State, id: EventId, steps: seq<(nat, Call)>)
    requires Integrity(cfg) && Inv(cfg, s)
    requires id in s.events ==> TickCount(cfg, s, id, steps) >= TicksLeft(cfg, s, id) + REGISTRATION_TICKS * RegisterCount(cfg, s, id, steps)
    ensures GoneWithin(cfg, s, id, steps)
    decreases |steps|
  {
    if id !in s.events {
      assert Run(cfg, s, steps[..0]) == s;
    } else {
      TicksPositive(cfg, s, id);
      var t := Apply(cfg, s, steps[0]);
      StepBudget(cfg, s, id, steps[0]);
      ApplyKeeps(cfg, s, steps[0].0, steps[0].1);
      EventuallyRemoved(cfg, t, id, steps[1..]);
      GoneLater(cfg, s, id, steps);
    }
  }

  lemma TicksPositive(cfg: Config, s: State, id: EventId)
    requires Integrity(cfg) && id in s.events
    ensures TicksLeft(cfg, s, id) > 0
  {
  }
}
