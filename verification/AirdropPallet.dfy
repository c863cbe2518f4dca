/** The airdrop pallet as it runs: storage that the calls update in place, proved against `Airdrop`. */
module AirdropPallet {
  import opened Prelude
  import opened Ordered
  import opened BigEndian
  import opened CyclicDraw
  import opened Airdrop
  import opened AirdropInvariant
  import opened AirdropRuns
  import opened AirdropProgress

  // ---------------------------------------------------------------------------------------------
  // The offchain worker's view of the schedule
  // ---------------------------------------------------------------------------------------------

  /** The storage key of a schedule entry. */
  function KeyBytes(entry: (nat, EventId)): seq<Byte> {
    Encode(entry.0, WIDTH_U64) + Encode(entry.1, WIDTH_U256)
  }

  ghost predicate KeysFit(schedule: set<(nat, EventId)>) {
    forall e :: e in schedule ==> e.0 < Space(WIDTH_U64) && e.1 < Space(WIDTH_U256)
  }

  /** `walk` is the iteration of the schedule: its entries in the byte order of their keys. */
  ghost predicate Iterates(schedule: set<(nat, EventId)>, walk: seq<(nat, EventId)>) {
    && (forall e :: e in walk <==> e in schedule)
    && forall i, j :: 0 <= i < j < |walk| ==> LexLess(KeyBytes(walk[i]), KeyBytes(walk[j]))
  }

  /** Key order is time order: nothing after the first future entry is due. */
  lemma WalkIsChronological(schedule: set<(nat, EventId)>, walk: seq<(nat, EventId)>, i: nat, j: nat)
    requires KeysFit(schedule) && Iterates(schedule, walk) && i <= j < |walk|
    ensures walk[i].0 <= walk[j].0
    ensures i < j ==> walk[i] != walk[j]
  {
    if i < j {
      assert walk[i] in schedule && walk[j] in schedule;
      TimestampKeyOrder(walk[i].0, walk[i].1, walk[j].0, walk[j].1);
    }
  }

  /** The `authorize_*` checks. */
  predicate Authorized(s: State, now: nat, id: EventId, kind: Kind) {
    id in s.events && var e := s.events[id];
    match kind
    case Start => e.status.Scheduled? && NextAction(e.status, e.info) <= now
    case CloseRegs => e.status.Registering? && NextAction(e.status, e.info) <= now
    case Draw => e.status.DrawWinners?
    case CloseDraw => e.status.DrawWinners? && e.status.added == e.status.effective
    case CloseClaims => e.status.Claiming? && NextAction(e.status, e.info) <= now
    case CleanRegs => e.status.ClearingRegistrations?
    case CleanWins => e.status.ClearingWinners?
    case Finish => e.status.Finalizing?
  }

  /** The entries a clearing call removes are those the prefix clear takes. */
  ghost predicate BatchOk(cfg: Config, s: State, call: Call) {
    && (call.CleanRegistrations? ==> call.doomed <= RegsOf(s, call.id).Keys && |call.doomed| == Min(cfg.clearLimit, |RegsOf(s, call.id).Keys|))
    && (call.CleanWinners? ==> call.gone <= WinnersOf(s, call.id).Keys && |call.gone| == Min(cfg.clearLimit, |WinnersOf(s, call.id).Keys|))
  }

  /** The authorization checks let through exactly the lifecycle calls that dispatch. */
  lemma EffectIffAuthorized(cfg: Config, s: State, now: nat, id: EventId, kind: Kind, call: Call)
    requires Fits(kind, id, call) && BatchOk(cfg, s, call)
    ensures Outcome(cfg, s, now, call).Some? <==> Authorized(s, now, id, kind)
  {
  }

  /** An event is due when its next action's time has come. */
  predicate Due(s: State, now: nat, id: EventId) {
    id in s.events && NextAction(s.events[id].status, s.events[id].info) <= now
  }

  /** The submissions of one tick: every due event once, each with its authorized call. */
  ghost predicate SubmitsDue(s: State, now: nat, calls: seq<(EventId, Kind)>) {
    && (forall id :: Due(s, now, id) <==> exists i :: 0 <= i < |calls| && calls[i].0 == id)
    && (forall i, j :: 0 <= i < j < |calls| ==> calls[i].0 != calls[j].0)
    && (forall i :: 0 <= i < |calls| ==> calls[i].0 in s.events && calls[i].1 == Choose(s.events[calls[i].0].status)
                                         && Authorized(s, now, calls[i].0, calls[i].1))
  }

  /** After `i` entries, all of them due, the calls are those of the entries seen. */
  ghost predicate Visited(s: State, walk: seq<(nat, EventId)>, i: nat, calls: seq<(EventId, Kind)>) {
    i <= |walk| && |calls| == i
    && forall k :: 0 <= k < i ==> calls[k].0 == walk[k].1 && calls[k].0 in s.events && calls[k].1 == Choose(s.events[calls[k].0].status)
  }

  lemma VisitedCoversDue(s: State, now: nat, walk: seq<(nat, EventId)>, i: nat, calls: seq<(EventId, Kind)>)
    requires ScheduleExact(s.events, s.schedule) && KeysFit(s.schedule) && Iterates(s.schedule, walk)
    requires Visited(s, walk, i, calls)
    requires forall k :: 0 <= k < i ==> walk[k].0 <= now
    requires i < |walk| ==> walk[i].0 > now
    ensures SubmitsDue(s, now, calls)
  {
    forall id
      ensures Due(s, now, id) <==> exists k :: 0 <= k < |calls| && calls[k].0 == id
    {
      if Due(s, now, id) {
        var k := EntryOf(s, walk, id);
        if k >= i {
          WalkIsChronological(s.schedule, walk, i, k);
          assert false;
        }
        assert calls[k].0 == id;
      }
      if k :| 0 <= k < |calls| && calls[k].0 == id {
        EntryIsPlanned(s, walk, k);
      }
    }
    forall k | 0 <= k < |calls|
      ensures Authorized(s, now, calls[k].0, calls[k].1)
    {
      EntryIsPlanned(s, walk, k);
    }
    forall k, l | 0 <= k < l < |calls|
      ensures calls[k].0 != calls[l].0
    {
      WalkIsChronological(s.schedule, walk, k, l);
      EntryIsPlanned(s, walk, k);
      EntryIsPlanned(s, walk, l);
    }
  }

  lemma EntryOf(s: State, walk: seq<(nat, EventId)>, id: EventId) returns (k: nat)
    requires ScheduleExact(s.events, s.schedule) && Iterates(s.schedule, walk) && id in s.events
    ensures k < |walk| && walk[k] == (NextAction(s.events[id].status, s.events[id].info), id)
  {
    var t := NextAction(s.events[id].status, s.events[id].info);
    assert Planned(s.events, t, id);
    assert (t, id) in s.schedule;
    assert (t, id) in walk;
    k :| 0 <= k < |walk| && walk[k] == (t, id);
  }

  lemma EntryIsPlanned(s: State, walk: seq<(nat, EventId)>, k: nat)
    requires ScheduleExact(s.events, s.schedule) && Iterates(s.schedule, walk) && k < |walk|
    ensures Planned(s.events, walk[k].0, walk[k].1)
  {
    assert walk[k] in walk && walk[k] in s.schedule;
    var (t, id) := walk[k];
    assert (t, id) in s.schedule;
  }

  // ---------------------------------------------------------------------------------------------
  // Runs keep the keys within their widths
  // ---------------------------------------------------------------------------------------------

  ghost predicate TimesFit(id: EventId, info: Info) {
    id < Space(WIDTH_U256) && info.registrationStarts < Space(WIDTH_U64) && info.drawTime < Space(WIDTH_U64) && info.endTime < Space(WIDTH_U64)
  }

  /** Event ids are 256-bit and times 64-bit numbers; only a scheduling call brings new ones. */
  ghost predicate Encodable(call: Call) {
    call.Schedule? ==> TimesFit(call.id, call.info)
  }

  ghost predicate EventsFit(events: map<EventId, Event>) {
    forall id :: id in events ==> TimesFit(id, events[id].info)
  }

  /** The event was there with the same times, or the call schedules it. */
  ghost predicate InfoKnown(s: State, call: Call, id: EventId, info: Info) {
    (id in s.events && info == s.events[id].info) || (call.Schedule? && id == call.id && info == call.info)
  }

  lemma UserKeepsInfo(cfg: Config, s: State, now: nat, call: Call, id: EventId)
    requires call.Schedule? || call.EnableAsset? || call.DisableAsset? || call.Register? || call.Claim?
    requires id in Apply(cfg, s, (now, call)).events
    ensures InfoKnown(s, call, id, Apply(cfg, s, (now, call)).events[id].info)
  {
  }

  lemma EndingKeepsInfo(cfg: Config, s: State, now: nat, call: Call, id: EventId)
    requires call.RemoveScheduled? || call.Finalize?
    requires id in Apply(cfg, s, (now, call)).events
    ensures InfoKnown(s, call, id, Apply(cfg, s, (now, call)).events[id].info)
  {
  }

  lemma RefundEvents(cfg: Config, s: State, id: EventId)
    requires id in s.events
    ensures RefundAndDrop(cfg, s, id).events == s.events - {id}
  {
  }

  lemma CancelEvents(cfg: Config, s: State, id: EventId, j: EventId)
    requires CancelSpec(cfg, s, id).Some? && j in CancelSpec(cfg, s, id).value.events
    ensures j in s.events && CancelSpec(cfg, s, id).value.events[j].info == s.events[j].info
  {
    if id in s.events && s.events[id].status.Scheduled? {
      RefundEvents(cfg, s, id);
    }
  }

  lemma CancelKeepsInfo(cfg: Config, s: State, now: nat, call: Call, id: EventId)
    requires call.Cancel?
    requires id in Apply(cfg, s, (now, call)).events
    ensures InfoKnown(s, call, id, Apply(cfg, s, (now, call)).events[id].info)
  {
    CancelEvents(cfg, s, call.id, id);
  }

  lemma ClosingKeepsInfo(cfg: Config, s: State, now: nat, call: Call, id: EventId)
    requires call.StartRegistration? || call.CloseRegistration?
    requires id in Apply(cfg, s, (now, call)).events
    ensures InfoKnown(s, call, id, Apply(cfg, s, (now, call)).events[id].info)
  {
  }

  lemma PhaseKeepsInfo(cfg: Config, s: State, now: nat, call: Call, id: EventId)
    requires call.CloseDrawing? || call.CloseClaiming?
    requires id in Apply(cfg, s, (now, call)).events
    ensures InfoKnown(s, call, id, Apply(cfg, s, (now, call)).events[id].info)
  {
  }

  lemma DrawKeepsInfo(cfg: Config, s: State, now: nat, call: Call, id: EventId)
    requires call.DrawBatch?
    requires id in Apply(cfg, s, (now, call)).events
    ensures InfoKnown(s, call, id, Apply(cfg, s, (now, call)).events[id].info)
  {
  }

  lemma ClearKeepsInfo(cfg: Config, s: State, now: nat, call: Call, id: EventId)
    requires call.CleanRegistrations? || call.CleanWinners?
    requires id in Apply(cfg, s, (now, call)).events
    ensures InfoKnown(s, call, id, Apply(cfg, s, (now, call)).events[id].info)
  {
  }

  lemma StepKeepsFit(cfg: Config, s: State, step: (nat, Call))
    requires EventsFit(s.events) && Encodable(step.1)
    ensures EventsFit(Apply(cfg, s, step).events)
  {
    var (now, call) := step;
    forall id | id in Apply(cfg, s, step).events
      ensures TimesFit(id, Apply(cfg, s, step).events[id].info)
    {
      if call.DrawBatch? {
        DrawKeepsInfo(cfg, s, now, call, id);
      } else if call.CleanRegistrations? || call.CleanWinners? {
        ClearKeepsInfo(cfg, s, now, call, id);
      } else if call.CloseDrawing? || call.CloseClaiming? {
        PhaseKeepsInfo(cfg, s, now, call, id);
      } else if call.StartRegistration? || call.CloseRegistration? {
        ClosingKeepsInfo(cfg, s, now, call, id);
      } else if call.RemoveScheduled? || call.Finalize? {
        EndingKeepsInfo(cfg, s, now, call, id);
      } else if call.Cancel? {
        CancelKeepsInfo(cfg, s, now, call, id);
      } else {
        UserKeepsInfo(cfg, s, now, call, id);
      }
    }
  }

  lemma {:induction false} RunKeepsFit(cfg: Config, s: State, steps: seq<(nat, Call)>)
    requires EventsFit(s.events) && forall i :: 0 <= i < |steps| ==> Encodable(steps[i].1)
    ensures EventsFit(Run(cfg, s, steps).events)
    decreases |steps|
  {
    if steps != [] {
      StepKeepsFit(cfg, s, steps[0]);
      RunKeepsFit(cfg, Apply(cfg, s, steps[0]), steps[1..]);
    }
  }

  /** What the worker's walk relies on holds in every reachable state of a run whose times and ids have their widths. */
  lemma WalkIsReady(cfg: Config, steps: seq<(nat, Call)>)
    requires forall i :: 0 <= i < |steps| ==> Encodable(steps[i].1)
    ensures var s := Run(cfg, Genesis(), steps); ScheduleExact(s.events, s.schedule) && KeysFit(s.schedule)
  {
    var s := Run(cfg, Genesis(), steps);
    GenesisInv(cfg);
    RunKeeps(cfg, Genesis(), steps);
    RunKeepsFit(cfg, Genesis(), steps);
    forall e | e in s.schedule
      ensures e.0 < Space(WIDTH_U64) && e.1 < Space(WIDTH_U256)
    {
      var (t, id) := e;
      assert Planned(s.events, t, id);
    }
  }

  // ---------------------------------------------------------------------------------------------
  // The calls
  // ---------------------------------------------------------------------------------------------

  /** The call answers as specified and leaves the specified state: the old one when it failed. */
  ghost predicate Commits(before: State, after: State, ok: bool, spec: Option<State>) {
    (ok <==> spec.Some?) && after == if spec.Some? then spec.value else before
  }

  class Pallet {
    const cfg: Config
    var events: map<EventId, Event>
    var schedule: set<(nat, EventId)>
    var registrations: map<EventId, map<Slot, Entry>>
    var winners: map<EventId, map<Entry, Slot>>
    var entropy: map<EventId, Slot>
    var held: map<AssetId, nat>
    var supported: map<AssetId, nat>

    constructor (cfg: Config)
      ensures View() == Genesis() && this.cfg == cfg && Inv(cfg, View())
    {
      this.cfg := cfg;
      events, schedule, registrations, winners := map[], {}, map[], map[];
      entropy, held, supported := map[], map[], map[];
      new;
      GenesisInv(cfg);
    }

    ghost function View(): State
      reads this
    {
      State(events, schedule, registrations, winners, entropy, held, supported)
    }

    method ReleaseRemainingPrizes(info: Info, count: nat)
      modifies this`held
      ensures held == Release(cfg, old(held), info, count)
    {
      if count == 0 {
        return;
      }
      var toRelease := SatMul(info.amount, count, cfg.maxBalance);
      var balance := Balance(held, info.asset);
      var released := Min(balance, toRelease);
      held := held[info.asset := balance - released];
    }

    method Move(id: EventId, status: Status)
      requires id in events
      modifies this`events, this`schedule
      ensures View() == Transition(old(View()), id, status)
    {
      var info := events[id].info;
      var was := NextAction(events[id].status, info);
      var will := NextAction(status, info);
      events := events[id := Event(info, status)];
      if was != will {
        schedule := schedule - {(was, id)};
        schedule := schedule + {(will, id)};
      }
    }

    method RefundAndDropEvent(id: EventId)
      requires id in events
      modifies this`events, this`schedule, this`held
      ensures View() == RefundAndDrop(cfg, old(View()), id)
    {
      var e := events[id];
      ReleaseRemainingPrizes(e.info, e.info.maxWinners);
      schedule := schedule - {(NextAction(e.status, e.info), id)};
      events := events - {id};
    }

    method ScheduleEvent(id: EventId, info: Info, holdOk: bool) returns (ok: bool)
      modifies this
      ensures Commits(old(View()), View(), ok, ScheduleSpec(cfg, old(View()), id, info, holdOk))
    {
      if info.winnerCap > PERMILL_ONE || info.maxWinners == 0 || info.maxWinners > MAX_WINNERS {
        return false;
      }
      if !(info.registrationStarts < info.drawTime && info.drawTime < info.endTime) {
        return false;
      }
      if info.asset !in supported || info.amount < Balance(cfg.minBalance, info.asset) || id in events {
        return false;
      }
      var toHold := info.amount * info.maxWinners;
      if toHold > cfg.maxBalance || !holdOk {
        return false;
      }
      held := held[info.asset := Balance(held, info.asset) + toHold];
      events := events[id := Event(info, Scheduled)];
      schedule := schedule + {(info.registrationStarts, id)};
      ok := true;
    }

    method RemoveScheduledEvent(id: EventId) returns (ok: bool)
      modifies this
      ensures Commits(old(View()), View(), ok, RemoveScheduledSpec(cfg, old(View()), id))
    {
      if id !in events || !events[id].status.Scheduled? {
        return false;
      }
      RefundAndDropEvent(id);
      ok := true;
    }

    method CancelEvent(id: EventId) returns (ok: bool)
      modifies this
      ensures Commits(old(View()), View(), ok, CancelSpec(cfg, old(View()), id))
    {
      ok := true;
      if id !in events {
        return;
      }
      var clearing: Status;
      match events[id].status {
        case Scheduled =>
          RefundAndDropEvent(id);
          return;
        case Registering(total) =>
          ReleaseRemainingPrizes(events[id].info, events[id].info.maxWinners);
          clearing := ClearingRegistrations(total, 0, 0, 0);
        case DrawWinners(total, effective, _, _) =>
          clearing := ClearingRegistrations(total, effective, 0, 0);
        case Claiming(total, effective, claimed) =>
          clearing := ClearingRegistrations(total, effective, claimed, 0);
        case _ =>
          return;
      }
      Move(id, clearing);
    }

    method EnableAsset(asset: AssetId, transferOk: bool) returns (ok: bool)
      modifies this`supported
      ensures Commits(old(View()), View(), ok, EnableSpec(cfg, old(View()), asset, transferOk))
    {
      if asset in supported || !transferOk {
        return false;
      }
      supported := supported[asset := Balance(cfg.minBalance, asset)];
      ok := true;
    }

    method DisableAsset(asset: AssetId, transferOk: bool) returns (ok: bool)
      modifies this`supported
      ensures Commits(old(View()), View(), ok, DisableSpec(old(View()), asset, transferOk))
    {
      if asset !in supported || !transferOk {
        return false;
      }
      supported := supported - {asset};
      ok := true;
    }

    method RegisterSlot(id: EventId, slot: Slot, entry: Entry) returns (ok: bool)
      modifies this`events, this`registrations
      ensures Commits(old(View()), View(), ok, RegisterSpec(old(View()), id, slot, entry))
    {
      if id !in events || !events[id].status.Registering? {
        return false;
      }
      var total := events[id].status.total;
      var regs := if id in registrations then registrations[id] else map[];
      if slot in regs || total == U32_MAX {
        return false;
      }
      registrations := registrations[id := regs[slot := entry]];
      events := events[id := Event(events[id].info, Registering(total + 1))];
      ok := true;
    }

    method ClaimPrize(now: nat, id: EventId, entry: Entry, transferOk: bool) returns (ok: bool)
      modifies this`events, this`winners, this`held
      ensures Commits(old(View()), View(), ok, ClaimSpec(old(View()), now, id, entry, transferOk))
    {
      if id !in events || !events[id].status.Claiming? {
        return false;
      }
      var info := events[id].info;
      var Claiming(total, effective, claimed) := events[id].status;
      var list := if id in winners then winners[id] else map[];
      if now >= info.endTime || info.asset !in supported || entry !in list {
        return false;
      }
      var balance := Balance(held, info.asset);
      if balance < info.amount || !transferOk {
        return false;
      }
      held := held[info.asset := balance - info.amount];
      winners := winners[id := list - {entry}];
      events := events[id := Event(info, Claiming(total, effective, SatAdd(claimed, 1, U32_MAX)))];
      ok := true;
    }

    method StartRegistrationAuthorized(now: nat, id: EventId) returns (ok: bool)
      modifies this`events, this`schedule
      ensures Commits(old(View()), View(), ok, StartSpec(old(View()), now, id))
    {
      if id !in events || !events[id].status.Scheduled? || now < NextAction(events[id].status, events[id].info) {
        return false;
      }
      Move(id, Registering(0));
      ok := true;
    }

    method CloseRegistrationAuthorized(now: nat, id: EventId, randomness: Option<Slot>) returns (ok: bool)
      modifies this
      ensures Commits(old(View()), View(), ok, CloseRegistrationSpec(cfg, old(View()), now, id, randomness))
    {
      if id !in events || !events[id].status.Registering? || now < NextAction(events[id].status, events[id].info) {
        return false;
      }
      ok := true;
      var info, total := events[id].info, events[id].status.total;
      if total == 0 {
        RefundAndDropEvent(id);
        return;
      }
      if randomness.None? {
        return;
      }
      var target := randomness.value;
      var effective := EffectiveWinners(info, total);
      ReleaseRemainingPrizes(info, SatSub(info.maxWinners, effective));
      entropy := entropy[id := target];
      Move(id, DrawWinners(total, effective, 0, target));
    }

    /** The draw loop: walk the registrations from the cursor, wrapping around, for up to a batch. */
    method DrawWinnersAuthorized(id: EventId) returns (ok: bool)
      modifies this`events, this`winners
      ensures Commits(old(View()), View(), ok, DrawSpec(cfg, old(View()), id))
    {
      if id !in events || !events[id].status.DrawWinners? {
        return false;
      }
      var DrawWinners(total, effective, added, from) := events[id].status;
      var regs := if id in registrations then registrations[id] else map[];
      var list := if id in winners then winners[id] else map[];
      var capped: nat := Min(SatSub(effective, added), cfg.drawLimit);
      var newList, newFrom, taken := DrawLoop(regs, list, from, capped);
      winners := winners[id := newList];
      events := events[id := Event(events[id].info, DrawWinners(total, effective, SatAdd(added, taken, U32_MAX), newFrom))];
      ok := true;
    }

    method CloseDrawingAuthorized(id: EventId) returns (ok: bool)
      modifies this`events, this`schedule
      ensures Commits(old(View()), View(), ok, CloseDrawingSpec(old(View()), id))
    {
      if id !in events || !events[id].status.DrawWinners? {
        return false;
      }
      var DrawWinners(total, effective, added, _) := events[id].status;
      if added != effective {
        return false;
      }
      Move(id, Claiming(total, effective, 0));
      ok := true;
    }

    method CloseClaimingAuthorized(now: nat, id: EventId) returns (ok: bool)
      modifies this`events, this`schedule
      ensures Commits(old(View()), View(), ok, CloseClaimingSpec(old(View()), now, id))
    {
      if id !in events || !events[id].status.Claiming? || now < NextAction(events[id].status, events[id].info) {
        return false;
      }
      var Claiming(total, effective, claimed) := events[id].status;
      Move(id, ClearingRegistrations(total, effective, claimed, 0));
      ok := true;
    }

    method CleanUpRegistrations(id: EventId, doomed: set<Slot>) returns (ok: bool)
      modifies this`events, this`schedule, this`registrations
      ensures Commits(old(View()), View(), ok, CleanRegistrationsSpec(cfg, old(View()), id, doomed))
    {
      if id !in events || !events[id].status.ClearingRegistrations? {
        return false;
      }
      var ClearingRegistrations(total, effective, claimed, cleaned) := events[id].status;
      var regs := if id in registrations then registrations[id] else map[];
      if !(doomed <= regs.Keys && |doomed| == Min(cfg.clearLimit, |regs.Keys|)) {
        return false;
      }
      registrations := registrations[id := regs - doomed];
      if regs - doomed == map[] {
        Move(id, ClearingWinners(total, effective, claimed, 0));
      } else {
        events := events[id := Event(events[id].info, ClearingRegistrations(total, effective, claimed, SatAdd(cleaned, |doomed|, U32_MAX)))];
      }
      ok := true;
    }

    method CleanUpWinners(id: EventId, gone: set<Entry>) returns (ok: bool)
      modifies this`events, this`schedule, this`winners
      ensures Commits(old(View()), View(), ok, CleanWinnersSpec(cfg, old(View()), id, gone))
    {
      if id !in events || !events[id].status.ClearingWinners? {
        return false;
      }
      var ClearingWinners(total, effective, claimed, cleaned) := events[id].status;
      var list := if id in winners then winners[id] else map[];
      if !(gone <= list.Keys && |gone| == Min(cfg.clearLimit, |list.Keys|)) {
        return false;
      }
      winners := winners[id := list - gone];
      if list - gone == map[] {
        Move(id, Finalizing(effective, claimed));
      } else {
        events := events[id := Event(events[id].info, ClearingWinners(total, effective, claimed, SatAdd(cleaned, |gone|, U32_MAX)))];
      }
      ok := true;
    }

    method FinalizeAuthorized(id: EventId) returns (ok: bool)
      modifies this
      ensures Commits(old(View()), View(), ok, FinalizeSpec(cfg, old(View()), id))
    {
      if id !in events || !events[id].status.Finalizing? {
        return false;
      }
      var e := events[id];
      ReleaseRemainingPrizes(e.info, SatSub(e.status.effective, e.status.claimed));
      schedule := schedule - {(NextAction(e.status, e.info), id)};
      entropy := entropy - {id};
      events := events - {id};
      ok := true;
    }

    /** The worker's walk: stop at the first entry in the future, submit the due event's call otherwise. */
    method OffchainWorker(now: nat, walk: seq<(nat, EventId)>) returns (calls: seq<(EventId, Kind)>)
      requires ScheduleExact(events, schedule) && KeysFit(schedule) && Iterates(schedule, walk)
      ensures SubmitsDue(View(), now, calls)
    {
      calls := [];
      var i := 0;
      while i < |walk|
        invariant Visited(View(), walk, i, calls)
        invariant forall k :: 0 <= k < i ==> walk[k].0 <= now
      {
        var (timestamp, id) := walk[i];
        if timestamp > now {
          break;
        }
        EntryIsPlanned(View(), walk, i);
        if id in events {
          calls := calls + [(id, Choose(events[id].status))];
        }
        i := i + 1;
      }
      VisitedCoversDue(View(), now, walk, i, calls);
    }

    method Dispatch(now: nat, call: Call) returns (ok: bool)
      modifies this
      ensures Commits(old(View()), View(), ok, Outcome(cfg, old(View()), now, call))
    {
      match call {
        case Schedule(id, info, holdOk) => ok := ScheduleEvent(id, info, holdOk);
        case RemoveScheduled(id) => ok := RemoveScheduledEvent(id);
        case Cancel(id) => ok := CancelEvent(id);
        case EnableAsset(asset, transferOk) => ok := EnableAsset(asset, transferOk);
        case DisableAsset(asset, transferOk) => ok := DisableAsset(asset, transferOk);
        case Register(id, slot, entry) => ok := RegisterSlot(id, slot, entry);
        case Claim(id, entry, transferOk) => ok := ClaimPrize(now, id, entry, transferOk);
        case StartRegistration(id) => ok := StartRegistrationAuthorized(now, id);
        case CloseRegistration(id, randomness) => ok := CloseRegistrationAuthorized(now, id, randomness);
        case DrawBatch(id) => ok := DrawWinnersAuthorized(id);
        case CloseDrawing(id) => ok := CloseDrawingAuthorized(id);
        case CloseClaiming(id) => ok := CloseClaimingAuthorized(now, id);
        case CleanRegistrations(id, doomed) => ok := CleanUpRegistrations(id, doomed);
        case CleanWinners(id, gone) => ok := CleanUpWinners(id, gone);
        case Finalize(id) => ok := FinalizeAuthorized(id);
      }
    }

    /** Any sequence of calls on the live pallet keeps the invariant. */
    method Execute(steps: seq<(nat, Call)>)
      requires Inv(cfg, View())
      modifies this
      ensures View() == Run(cfg, old(View()), steps) && Inv(cfg, View())
    {
      var i := 0;
      while i < |steps|
        invariant 0 <= i <= |steps|
        invariant Run(cfg, View(), steps[i..]) == Run(cfg, old(View()), steps)
      {
        ghost var s := View();
        var _ := Dispatch(steps[i].0, steps[i].1);
        RunUnfold(cfg, s, steps, i);
        i := i + 1;
      }
      RunKeeps(cfg, old(View()), steps);
    }
  }

  lemma RunUnfold(cfg: Config, s: State, steps: seq<(nat, Call)>, i: nat)
    requires i < |steps|
    ensures Run(cfg, s, steps[i..]) == Run(cfg, Apply(cfg, s, (steps[i].0, steps[i].1)), steps[i + 1..])
  {
    assert steps[i..][1..] == steps[i + 1..];
    assert steps[i] == (steps[i].0, steps[i].1);
  }

  /** The loop of `draw_winners_authorized` over the chained iterators, cut after `capped` entries. */
  method DrawLoop(regs: map<Slot, Entry>, list: map<Entry, Slot>, from: Slot, capped: nat)
    returns (newList: map<Entry, Slot>, cursor: Slot, taken: nat)
    ensures newList == AddWinners(list, regs, NextSlots(regs, from, capped))
    ensures cursor == Advance(NextSlots(regs, from, capped), from)
    ensures taken == |NextSlots(regs, from, capped)|
  {
    var keys := SortedKeys(regs.Keys);
    var chain := keys[Cut(keys, from)..] + keys;
    ChainKeys(regs, keys, Cut(keys, from), chain);
    newList, cursor, taken := WalkChain(regs, list, from, chain, capped);
    TakenIsBatch(regs, list, from, capped, keys, chain, taken);
  }

  method WalkChain(regs: map<Slot, Entry>, list: map<Entry, Slot>, from: Slot, chain: seq<Slot>, capped: nat)
    returns (newList: map<Entry, Slot>, cursor: Slot, taken: nat)
    requires Registered(regs, chain)
    ensures taken == Min(capped, |chain|)
    ensures newList == Recorded(list, regs, chain, taken) && cursor == Advance(chain[..taken], from)
  {
    newList, cursor, taken := list, from, 0;
    while taken < capped && taken < |chain|
      invariant taken <= capped && taken <= |chain|
      invariant newList == Recorded(list, regs, chain, taken)
      invariant cursor == Advance(chain[..taken], from)
    {
      var slot := chain[taken];
      TakeOneMore(list, regs, chain, from, taken);
      newList := newList[regs[slot] := slot];
      cursor := slot;
      taken := taken + 1;
    }
  }

  ghost predicate Registered(regs: map<Slot, Entry>, chain: seq<Slot>) {
    forall x :: x in chain ==> x in regs
  }

  /** The winners after the first `n` slots of the chain. */
  ghost function Recorded(list: map<Entry, Slot>, regs: map<Slot, Entry>, chain: seq<Slot>, n: nat): map<Entry, Slot>
    requires n <= |chain|
  {
    AddWinners(list, regs, chain[..n])
  }

  lemma ChainKeys(regs: map<Slot, Entry>, keys: seq<Slot>, cut: nat, chain: seq<Slot>)
    requires keys == SortedKeys(regs.Keys) && cut <= |keys| && chain == keys[cut..] + keys
    ensures Registered(regs, chain)
  {
    SortedKeysListing(regs.Keys);
  }

  lemma TakeOneMore(list: map<Entry, Slot>, regs: map<Slot, Entry>, chain: seq<Slot>, from: Slot, n: nat)
    requires n < |chain| && Registered(regs, chain)
    ensures chain[n] in regs
    ensures Recorded(list, regs, chain, n + 1) == Recorded(list, regs, chain, n)[regs[chain[n]] := chain[n]]
    ensures Advance(chain[..n + 1], from) == chain[n]
  {
    assert chain[n] in chain;
    assert chain[..n + 1][..n] == chain[..n];
  }

  lemma TakenIsBatch(regs: map<Slot, Entry>, list: map<Entry, Slot>, from: Slot, capped: nat, keys: seq<Slot>, chain: seq<Slot>, taken: nat)
    requires keys == SortedKeys(regs.Keys) && chain == keys[Cut(keys, from)..] + keys
    requires taken == Min(capped, |chain|)
    ensures NextSlots(regs, from, capped) == chain[..taken]
    ensures AddWinners(list, regs, NextSlots(regs, from, capped)) == Recorded(list, regs, chain, taken)
  {
    var batch := NextSlots(regs, from, capped);
    assert batch == chain[..taken] by {
      BatchIsChained(keys, from, capped, chain);
      WholeChain(chain);
    }
    SameSlots(regs, list, chain, taken, batch);
  }

  lemma WholeChain(chain: seq<Slot>)
    ensures chain[..|chain|] == chain
  {
  }

  lemma SameSlots(regs: map<Slot, Entry>, list: map<Entry, Slot>, chain: seq<Slot>, taken: nat, batch: seq<Slot>)
    requires taken <= |chain| && batch == chain[..taken]
    ensures AddWinners(list, regs, batch) == Recorded(list, regs, chain, taken)
  {
  }
}
